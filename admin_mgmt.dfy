/** src/components/AdminManagement.tsx: the list of administrators, with
    create, edit and a guarded delete. */
module AdminManagement {
  import opened Common
  import opened Json
  import opened Http

  datatype Admin = Admin(id: string, name: string, employeeId: string, isMainAdmin: bool, createdAt: string)

  datatype AdminForm = AdminForm(name: string, employeeId: string, password: string)

  const EmptyForm: AdminForm := AdminForm("", "", "")

  const MainAdminMessage: string := "메인 관리자는 삭제할 수 없습니다."
  const SelfDeleteMessage: string := "현재 로그인한 계정은 삭제할 수 없습니다."

  /** The delete button is disabled for the main admin and for the signed-in admin. */
  predicate DeleteDisabled(admin: Admin, currentAdmin: Admin)
  {
    admin.isMainAdmin || admin.id == currentAdmin.id
  }

  /** The alert `handleDelete` shows before asking, if it refuses: the main
      admin is checked first. */
  function DeleteRefusal(admin: Admin, currentAdmin: Admin): (r: Option<string>)
    ensures admin.isMainAdmin ==> r == Some(MainAdminMessage)
    ensures !admin.isMainAdmin && admin.id == currentAdmin.id ==> r == Some(SelfDeleteMessage)
  {
    if admin.isMainAdmin then Some(MainAdminMessage)
    else if admin.id == currentAdmin.id then Some(SelfDeleteMessage)
    else None
  }

  /** The confirmation text. */
  function ConfirmText(admin: Admin): string
  {
    "정말로 관리자 \"" + admin.name + "\"을 삭제하시겠습니까?"
  }

  /** The delete request, if any: the guards, then the admin's confirmation. */
  function DeleteRequest(adminId: string, admin: Admin, currentAdmin: Admin, confirmed: bool): Option<Request>
  {
    if DeleteRefusal(admin, currentAdmin).Some? || !confirmed then None
    else Some(Request("DELETE", "admin/" + adminId, map[]))
  }

  /** The handler refuses exactly the admins whose button is disabled, so no
      request ever leaves for the main admin or for oneself; for anyone else
      the admin's answer decides. */
  lemma DeleteGuardsMatchButton(adminId: string, admin: Admin, currentAdmin: Admin, confirmed: bool)
    ensures DeleteRefusal(admin, currentAdmin).Some? <==> DeleteDisabled(admin, currentAdmin)
    ensures DeleteRequest(adminId, admin, currentAdmin, confirmed).Some? <==>
      !DeleteDisabled(admin, currentAdmin) && confirmed
    ensures DeleteRequest(adminId, admin, currentAdmin, confirmed).Some? ==>
      DeleteRequest(adminId, admin, currentAdmin, confirmed).value == Request("DELETE", "admin/" + adminId, map[])
  {
  }

  /** The form as the request body: name, employee id and password. */
  function FormBody(form: AdminForm): (r: Record)
    ensures r.Keys == {"name", "employeeId", "password"}
    ensures r["name"] == JStr(form.name) && r["employeeId"] == JStr(form.employeeId)
      && r["password"] == JStr(form.password)
  {
    map["name" := JStr(form.name), "employeeId" := JStr(form.employeeId), "password" := JStr(form.password)]
  }

  /** `handleSubmit`'s request: PUT to `admin/<id>` when editing, POST to
      `admin/create` otherwise, with the form as the body. */
  function SaveRequest(editingAdmin: Option<Admin>, form: AdminForm): (r: Request)
    ensures r.verb == "PUT" <==> editingAdmin.Some?
    ensures r.verb == "POST" <==> editingAdmin.None?
    ensures editingAdmin.Some? ==> r.path == "admin/" + editingAdmin.value.id
    ensures editingAdmin.None? ==> r.path == "admin/create"
    ensures r.body == FormBody(form)
  {
    if editingAdmin.Some? then Request("PUT", "admin/" + editingAdmin.value.id, FormBody(form))
    else Request("POST", "admin/create", FormBody(form))
  }

  /** The demo admins `loadAdmins` falls back to. */
  function DemoAdmins(nowIso: string): (r: seq<Admin>)
    ensures |r| == 2 && r[0].isMainAdmin && !r[1].isMainAdmin && r[0].employeeId == "ADMIN001"
  {
    [Admin("admin_001", "시스템 관리자", "ADMIN001", true, nowIso), Admin("admin_002", "김철수", "EMP001", false, nowIso)]
  }

  /** The list `loadAdmins` stores. */
  function LoadedAdmins(response: Fetch<Option<seq<Admin>>>, nowIso: string): seq<Admin>
  {
    match response
    case Ok(data) => if data.Some? then data.value else []
    case _ => DemoAdmins(nowIso)
  }

  class AdminManager {
    const currentAdmin: Admin
    var admins: seq<Admin>
    var loading: bool
    var isDialogOpen: bool
    var editingAdmin: Option<Admin>
    var formData: AdminForm

    constructor (signedIn: Admin)
      ensures currentAdmin == signedIn && admins == [] && loading && !isDialogOpen
      ensures editingAdmin.None? && formData == EmptyForm
    {
      currentAdmin := signedIn;
      admins, loading, isDialogOpen := [], true, false;
      editingAdmin, formData := None, EmptyForm;
    }

    /** `loadAdmins` */
    method LoadAdmins(response: Fetch<Option<seq<Admin>>>, nowIso: string)
      modifies this
      ensures admins == LoadedAdmins(response, nowIso) && !loading
      ensures isDialogOpen == old(isDialogOpen) && editingAdmin == old(editingAdmin) && formData == old(formData)
    {
      match response {
        case Ok(data) =>
          admins := if data.Some? then data.value else [];
        case _ =>
          admins := DemoAdmins(nowIso);
      }
      loading := false;
    }

    /** `handleEdit`: name and employee id from the admin, an empty password, dialog open. */
    method HandleEdit(admin: Admin)
      modifies this
      ensures editingAdmin == Some(admin) && formData == AdminForm(admin.name, admin.employeeId, "") && isDialogOpen
      ensures admins == old(admins) && loading == old(loading)
    {
      editingAdmin := Some(admin);
      formData := AdminForm(admin.name, admin.employeeId, "");
      isDialogOpen := true;
    }

    /** `resetForm`: nothing edited and every field empty. */
    method ResetForm()
      modifies this
      ensures editingAdmin.None? && formData == EmptyForm
      ensures admins == old(admins) && loading == old(loading) && isDialogOpen == old(isDialogOpen)
    {
      editingAdmin := None;
      formData := AdminForm("", "", "");
    }

    /** `handleSubmit`. `saved` is the parsed reply (`None` when the request or
        the parse threw; a `null` reply throws when its `success` is read) and `reload` the reply the list is then reloaded from. */
    method HandleSubmit(saved: Option<Json>, reload: Fetch<Option<seq<Admin>>>, nowIso: string)
      returns (request: Request, alert: Option<string>)
      modifies this
      ensures request == SaveRequest(old(editingAdmin), old(formData))
      ensures ReadThrows(saved) ==>
        alert == Some("관리자 저장 중 오류가 발생했습니다.") && admins == old(admins) && loading == old(loading)
        && isDialogOpen == old(isDialogOpen) && editingAdmin == old(editingAdmin) && formData == old(formData)
      ensures !ReadThrows(saved) && Truthy(Prop(saved, "success")) ==>
        alert.None? && admins == LoadedAdmins(reload, nowIso) && !loading && !isDialogOpen
        && editingAdmin.None? && formData == EmptyForm
      ensures !ReadThrows(saved) && !Truthy(Prop(saved, "success")) ==>
        alert == Some(Show(Some(Or(Prop(saved, "error"), JStr("관리자 저장에 실패했습니다.")))))
        && admins == old(admins) && loading == old(loading)
        && isDialogOpen == old(isDialogOpen) && editingAdmin == old(editingAdmin) && formData == old(formData)
    {
      request := SaveRequest(editingAdmin, formData);
      alert := None;
      if ReadThrows(saved) {
        alert := Some("관리자 저장 중 오류가 발생했습니다.");
        return;
      }
      if Truthy(Prop(saved, "success")) {
        LoadAdmins(reload, nowIso);
        isDialogOpen := false;
        ResetForm();
      } else {
        alert := Some(Show(Some(Or(Prop(saved, "error"), JStr("관리자 저장에 실패했습니다.")))));
      }
    }

    /** `handleDelete`. `confirmed` is the answer to the confirmation, `deleted`
        the parsed reply (`None` when the request or the parse threw; a `null`
        reply throws as well). A refused
        delete shows its alert and makes no request and no prompt. */
    method HandleDelete(adminId: string, admin: Admin, confirmed: bool, deleted: Option<Json>,
                        reload: Fetch<Option<seq<Admin>>>, nowIso: string)
      returns (prompt: Option<string>, request: Option<Request>, alert: Option<string>)
      modifies this
      ensures request == DeleteRequest(adminId, admin, currentAdmin, confirmed)
      ensures DeleteRefusal(admin, currentAdmin).Some? ==>
        prompt.None? && alert == DeleteRefusal(admin, currentAdmin) && admins == old(admins)
      ensures DeleteRefusal(admin, currentAdmin).None? ==> prompt == Some(ConfirmText(admin))
      ensures DeleteRefusal(admin, currentAdmin).None? && !confirmed ==> alert.None?
      ensures request.None? ==> admins == old(admins) && loading == old(loading)
      ensures request.Some? && !ReadThrows(deleted) && Truthy(Prop(deleted, "success")) ==>
        alert.None? && admins == LoadedAdmins(reload, nowIso) && !loading
      ensures request.Some? && !ReadThrows(deleted) && !Truthy(Prop(deleted, "success")) ==>
        alert == Some(Show(Some(Or(Prop(deleted, "error"), JStr("관리자 삭제에 실패했습니다.")))))
        && admins == old(admins)
      ensures request.Some? && ReadThrows(deleted) ==>
        alert == Some("관리자 삭제 중 오류가 발생했습니다.") && admins == old(admins)
      ensures isDialogOpen == old(isDialogOpen) && editingAdmin == old(editingAdmin) && formData == old(formData)
    {
      prompt, request, alert := None, None, None;
      if admin.isMainAdmin {
        alert := Some(MainAdminMessage);
        return;
      }
      if admin.id == currentAdmin.id {
        alert := Some(SelfDeleteMessage);
        return;
      }
      prompt := Some(ConfirmText(admin));
      if !confirmed {
        return;
      }
      request := Some(Request("DELETE", "admin/" + adminId, map[]));
      if ReadThrows(deleted) {
        alert := Some("관리자 삭제 중 오류가 발생했습니다.");
        return;
      }
      if Truthy(Prop(deleted, "success")) {
        LoadAdmins(reload, nowIso);
      } else {
        alert := Some(Show(Some(Or(Prop(deleted, "error"), JStr("관리자 삭제에 실패했습니다.")))));
      }
    }
  }
}
