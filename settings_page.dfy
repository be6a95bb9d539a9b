/** The settings page (frontend/src/pages/Settings.js): the order-type
    dialog and its form, the request it sends, and the PDF template edits.
    Only an administrator sees the page. */
module SettingsPage {
  import opened Wrappers
  import opened Text
  import opened Numerals
  import opened Records
  import Store
  import Layout

  /** The order-type dialog's form. */
  datatype TypeForm = TypeForm(name: string, code: string, description: string, isActive: bool, order: int)

  const EMPTY_TYPE_FORM := TypeForm("", "", "", true, 0)

  /** A value of the PDF template document: text or a switch. */
  datatype TemplateValue = TextValue(text: string) | FlagValue(flag: bool)

  /** What the dialog's submit sends: a new type, or new data for an existing one. */
  datatype TypeRequest = CreateType(fields: OrderTypeFields) | UpdateType(typeId: string, fields: OrderTypeFields)

  /** The page is shown to administrators only. */
  predicate CanAccessSettings(user: Option<User>) {
    user.Some? && user.value.role == ROLE_ADMIN
  }

  /** The code input: lower-cased, each run of whitespace turned into `_`. */
  function NormalizeCode(text: string): (code: string)
    ensures forall k :: 0 <= k < |code| ==> !IsJsSpace(code[k])
  {
    ReplaceSpaceRunsChars(Lower(text), "_");
    ReplaceSpaceRuns(Lower(text), "_")
  }

  /** Typing a code that is already normalised leaves it as it is. */
  lemma NormalizeCodeIdempotent(text: string)
    ensures NormalizeCode(NormalizeCode(text)) == NormalizeCode(text)
  {
    var code := NormalizeCode(text);
    ReplaceSpaceRunsChars(Lower(text), "_");
    LowerYieldsFixed(text);
    forall k | 0 <= k < |code| ensures IsLowerFixed(code[k]) {
      if code[k] in Lower(text) {
        var j :| 0 <= j < |Lower(text)| && Lower(text)[j] == code[k];
      } else {
        assert code[k] == '_';
      }
    }
    LowerOfFixed(code);
    ReplaceSpaceRunsNoSpace(code, "_");
  }

  /** The order input: `parseInt(text) || 0`. */
  function OrderInput(text: string): (n: int)
    ensures JsParseInt(text).None? ==> n == 0
    ensures JsParseInt(text).Some? ==> n == JsParseInt(text).value
  {
    JsParseIntOr(text, 0)
  }

  /** The form the dialog opens with: an existing type's data (no description
      reads as empty), or an empty active type placed after the `count`
      types listed. */
  function FormFor(orderType: Option<OrderTypeRecord>, count: nat): (f: TypeForm)
    ensures orderType.Some? ==> f.name == orderType.value.data.name && f.code == orderType.value.data.code
    ensures orderType.Some? ==> f.isActive == orderType.value.data.isActive && f.order == orderType.value.data.order
    ensures orderType.Some? ==> f.description == orderType.value.data.description.GetOr("")
    ensures orderType.None? ==> f == EMPTY_TYPE_FORM.(order := count + 1)
  {
    match orderType
    case Some(t) => TypeForm(t.data.name, t.data.code, t.data.description.GetOr(""), t.data.isActive, t.data.order)
    case None => EMPTY_TYPE_FORM.(order := count + 1)
  }

  /** The body sent: the form's fields, the description always as text. */
  function TypeFields(f: TypeForm): (d: OrderTypeFields)
    ensures d.name == f.name && d.code == f.code && d.description == Some(f.description)
    ensures d.isActive == f.isActive && d.order == f.order
  {
    OrderTypeFields(f.name, f.code, Some(f.description), f.isActive, f.order)
  }

  /** Saving an existing type updates it by id; saving a new one creates it. */
  function RequestFor(editing: Option<OrderTypeRecord>, f: TypeForm): (r: TypeRequest)
    ensures r.UpdateType? <==> editing.Some?
    ensures r.UpdateType? ==> r.typeId == editing.value.id
    ensures r.fields == TypeFields(f)
  {
    match editing
    case Some(t) => UpdateType(t.id, TypeFields(f))
    case None => CreateType(TypeFields(f))
  }

  /** The browser's check of the dialog's `required` inputs before submit:
      the name must not be empty, nor the code while it is editable, that is
      for a new type (a disabled input is not checked). */
  predicate FormComplete(editing: Option<OrderTypeRecord>, f: TypeForm) {
    f.name != "" && (editing.None? ==> f.code != "")
  }

  /** The page's state. */
  class SettingsPageState {
    var orderTypes: seq<OrderTypeRecord>
    var editingType: Option<OrderTypeRecord>
    var formData: TypeForm
    var dialogOpen: bool
    var pdfTemplate: Option<map<string, TemplateValue>>

    /** While an existing type is edited its code cannot be changed. */
    predicate Valid()
      reads this
    {
      editingType.Some? ==> formData.code == editingType.value.data.code
    }

    constructor ()
      ensures orderTypes == [] && editingType.None? && formData == EMPTY_TYPE_FORM
      ensures !dialogOpen && pdfTemplate.None? && Valid()
    {
      orderTypes, editingType, formData, dialogOpen, pdfTemplate := [], None, EMPTY_TYPE_FORM, false, None;
    }

    /** The list fetched from the server replaces the page's list. */
    method SetOrderTypes(fetched: seq<OrderTypeRecord>)
      requires Valid()
      modifies this`orderTypes
      ensures orderTypes == fetched && Valid()
    {
      orderTypes := fetched;
    }

    /** `handleOpenDialog`: edit the given type, or start a new one. */
    method OpenDialog(orderType: Option<OrderTypeRecord>)
      modifies this`editingType, this`formData, this`dialogOpen
      ensures editingType == orderType && dialogOpen
      ensures formData == FormFor(orderType, |orderTypes|)
      ensures Valid()
    {
      editingType := orderType;
      formData := FormFor(orderType, |orderTypes|);
      dialogOpen := true;
    }

    method SetName(name: string)
      requires Valid()
      modifies this`formData
      ensures formData == old(formData).(name := name) && Valid()
    {
      formData := formData.(name := name);
    }

    /** The code input, disabled while an existing type is edited. */
    method SetCode(text: string)
      requires Valid()
      modifies this`formData
      ensures editingType.Some? ==> formData == old(formData)
      ensures editingType.None? ==> formData == old(formData).(code := NormalizeCode(text))
      ensures Valid()
    {
      if editingType.None? {
        formData := formData.(code := NormalizeCode(text));
      }
    }

    method SetDescription(description: string)
      requires Valid()
      modifies this`formData
      ensures formData == old(formData).(description := description) && Valid()
    {
      formData := formData.(description := description);
    }

    method SetOrder(text: string)
      requires Valid()
      modifies this`formData
      ensures formData == old(formData).(order := OrderInput(text)) && Valid()
    {
      formData := formData.(order := OrderInput(text));
    }

    method SetActive(active: bool)
      requires Valid()
      modifies this`formData
      ensures formData == old(formData).(isActive := active) && Valid()
    {
      formData := formData.(isActive := active);
    }

    /** `handleSubmit`: an incomplete form is stopped by the browser and
        nothing is sent; otherwise the request for the form is sent, on
        success the dialog closes and the list is fetched again, on failure
        nothing changes. A new type always has a name and a code, and an
        update always carries the edited type's own code. */
    method Submit(succeeded: bool, refetched: seq<OrderTypeRecord>) returns (req: Option<TypeRequest>)
      requires Valid()
      modifies this`dialogOpen, this`orderTypes
      ensures req.None? <==> !FormComplete(editingType, formData)
      ensures req.Some? ==> req.value == RequestFor(editingType, formData)
      ensures req.Some? ==> req.value.fields.name != ""
      ensures req.Some? && req.value.CreateType? ==> req.value.fields.code != ""
      ensures req.Some? && req.value.UpdateType? ==> req.value.fields.code == editingType.value.data.code
      ensures req.Some? && succeeded ==> !dialogOpen && orderTypes == refetched
      ensures req.None? || !succeeded ==> dialogOpen == old(dialogOpen) && orderTypes == old(orderTypes)
      ensures Valid()
    {
      if !FormComplete(editingType, formData) {
        return None;
      }
      req := Some(RequestFor(editingType, formData));
      if succeeded {
        dialogOpen := false;
        orderTypes := refetched;
      }
    }

    /** `handleDelete`: nothing is sent unless the user confirms; after a
        successful delete the list is fetched again. */
    method Delete(typeId: string, confirmed: bool, succeeded: bool, refetched: seq<OrderTypeRecord>) returns (sent: Option<string>)
      requires Valid()
      modifies this`orderTypes
      ensures sent == (if confirmed then Some(typeId) else None)
      ensures confirmed && succeeded ==> orderTypes == refetched
      ensures !(confirmed && succeeded) ==> orderTypes == old(orderTypes)
      ensures Valid()
    {
      if !confirmed {
        return None;
      }
      sent := Some(typeId);
      if succeeded {
        orderTypes := refetched;
      }
    }

    /** `handleUpdatePdfTemplate`:the field takes the value in the page's
        copy at once (a template not yet loaded counts as empty), and that
        whole copy is what is sent. */
    method UpdatePdfTemplate(field: string, value: TemplateValue) returns (sent: map<string, TemplateValue>)
      modifies this`pdfTemplate
      ensures sent == (if old(pdfTemplate).Some? then old(pdfTemplate).value else map[])[field := value]
      ensures pdfTemplate == Some(sent)
    {
      var current := if pdfTemplate.Some? then pdfTemplate.value else map[];
      sent := current[field := value];
      pdfTemplate := Some(sent);
    }
  }

  /** The server's `update_order_type` does not check codes; an update sent
      by this page keeps the type's code, so type codes stay unique. */
  lemma PageUpdateKeepsCodesUnique(types: seq<OrderTypeRecord>, k: nat, f: TypeForm)
    requires Store.TypeCodesUnique(types) && k < |types|
    requires f.code == types[k].data.code
    ensures Store.TypeCodesUnique(types[k := types[k].(data := TypeFields(f))])
  {
    var u := types[k := types[k].(data := TypeFields(f))];
    forall i, j | 0 <= i < j < |u| ensures u[i].data.code != u[j].data.code {
      assert u[i].data.code == types[i].data.code;
      assert u[j].data.code == types[j].data.code;
    }
  }

  /** The sidebar offers the settings entry to exactly the users this page
      admits. */
  lemma SettingsLinkMatchesAccess(user: Option<User>)
    ensures Layout.NAV_SETTINGS in Layout.Navigation(user) <==> CanAccessSettings(user)
  {
  }
}
