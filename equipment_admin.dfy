/**
 * The equipment page: the stored equipment list, searched by text and
 * status, and edited through a modal form that creates, edits, deletes and
 * resets rows.
 */
module EquipmentAdmin {
  import opened Common
  import opened Text
  import opened Entities

  /** The modal form: the quantity is whatever `Number(form.quantity)` makes of the field. */
  datatype EquipmentForm = EquipmentForm(
    id: string,
    name: string,
    category: string,
    quantity: Num,
    status: EquipmentStatus)

  /** The three messages `validate` can return, in the order it checks them. */
  datatype EquipmentError = MissingName | MissingCategory | BadQuantity

  /** The form `openCreate` opens with. */
  function BlankForm(): EquipmentForm {
    EquipmentForm("", "", "", Finite(1), Available)
  }

  /** The form `openEdit` opens with: a copy of the row. */
  function FormOf(e: Equipment): EquipmentForm {
    EquipmentForm(e.id, e.name, e.category, Finite(e.quantity), e.status)
  }

  /** `validate`: the first failed check, or None when the form may be saved. */
  function Validate(form: EquipmentForm): (r: Option<EquipmentError>)
    ensures r.None? <==> !IsBlank(form.name) && !IsBlank(form.category)
                         && form.quantity.Finite? && form.quantity.n >= 0
    ensures r == Some(MissingName) <==> IsBlank(form.name)
    ensures r == Some(MissingCategory) <==> !IsBlank(form.name) && IsBlank(form.category)
  {
    if IsBlank(form.name) then Some(MissingName)
    else if IsBlank(form.category) then Some(MissingCategory)
    else if form.quantity.NotFinite? || form.quantity.n < 0 then Some(BadQuantity)
    else None
  }

  /**
   * `clean`: the form with its quantity read as a number and the given id.
   * Opening the saved row for editing gives back the same form.
   */
  function Clean(form: EquipmentForm, id: string): (e: Equipment)
    requires form.quantity.Finite?
    ensures FormOf(e) == form.(id := id)
  {
    Equipment(id, form.name, form.category, form.quantity.n, form.status)
  }

  /** A row as the form lets it be saved. */
  predicate RowOk(e: Equipment) {
    !IsBlank(e.name) && !IsBlank(e.category) && e.quantity >= 0
  }

  predicate AllRowsOk(rows: seq<Equipment>) {
    forall i :: 0 <= i < |rows| ==> RowOk(rows[i])
  }

  /** A form that passes `validate` makes a row that passes it too, whatever its id. */
  lemma CleanRowOk(form: EquipmentForm, id: string)
    requires Validate(form).None?
    ensures RowOk(Clean(form, id))
    ensures Clean(form, id).id == id
  {
  }

  /** Putting a checked row in front of, or in place of a row of, checked rows keeps them all checked. */
  lemma SaveKeepsRowsOk(rows: seq<Equipment>, e: Equipment)
    requires AllRowsOk(rows) && RowOk(e)
    ensures AllRowsOk([e] + rows)
    ensures AllRowsOk(Replace(rows, EquipmentKey, e.id, e))
  {
    var r := [e] + rows;
    forall i | 0 <= i < |r| ensures RowOk(r[i]) {
      if i > 0 {
        assert r[i] == rows[i - 1];
      }
    }
  }

  /** The rows after a save that passed `validate`: a new row in front, or the edited one in place. */
  function Saved(rows: seq<Equipment>, mode: Mode, form: EquipmentForm, freshId: string): (r: seq<Equipment>)
    requires form.quantity.Finite?
    ensures mode == Create ==> |r| == |rows| + 1 && FormOf(r[0]) == form.(id := freshId) && r[1..] == rows
    ensures mode == Edit ==> |r| == |rows|
    ensures mode == Edit ==> forall j :: 0 <= j < |rows| && rows[j].id == form.id ==> FormOf(r[j]) == form
    ensures mode == Edit ==> forall j :: 0 <= j < |rows| && rows[j].id != form.id ==> r[j] == rows[j]
  {
    if mode == Create then [Clean(form, freshId)] + rows
    else Replace(rows, EquipmentKey, form.id, Clean(form, form.id))
  }

  /**
   * A save that passed `validate` keeps every row checked, and keeps ids
   * unique when a new row gets an id no row has.
   */
  lemma SavedKeepsInvariants(rows: seq<Equipment>, mode: Mode, form: EquipmentForm, freshId: string)
    requires Validate(form).None?
    ensures AllRowsOk(rows) ==> AllRowsOk(Saved(rows, mode, form, freshId))
    ensures Unique(rows, EquipmentKey)
            && (mode == Create ==> forall i :: 0 <= i < |rows| ==> rows[i].id != freshId)
            ==> Unique(Saved(rows, mode, form, freshId), EquipmentKey)
  {
    var clean := Clean(form, if mode == Create then freshId else form.id);
    CleanRowOk(form, clean.id);
    if AllRowsOk(rows) {
      SaveKeepsRowsOk(rows, clean);
    }
    if mode == Create {
      if Unique(rows, EquipmentKey) && forall i :: 0 <= i < |rows| ==> rows[i].id != freshId {
        PrependKeepsUnique(clean, rows, EquipmentKey);
      }
    } else if Unique(rows, EquipmentKey) {
      ReplaceInPlace(rows, EquipmentKey, clean);
    }
  }

  /** The status drop-down: "ALL" or one status. */
  datatype StatusChoice = AllStatuses | OnlyStatus(status: EquipmentStatus)

  /** The text half of the filter, with s the trimmed lower-cased query. */
  predicate MatchesText(e: Equipment, s: string) {
    s == "" || Includes(Lower(e.name), s) || Includes(Lower(e.category), s)
  }

  predicate Shown(e: Equipment, q: string, choice: StatusChoice) {
    MatchesText(e, Lower(Trim(q))) && (choice.AllStatuses? || e.status == choice.status)
  }

  /** `filtered`: the rows matching both the text and the status, in stored order. */
  function EquipmentView(rows: seq<Equipment>, q: string, choice: StatusChoice): (r: seq<Equipment>)
    ensures forall e :: e in r <==> e in rows && Shown(e, q, choice)
  {
    var p := e => Shown(e, q, choice);
    FilterMembers(rows, p);
    Filter(rows, p)
  }

  lemma ShownWhenBlank(e: Equipment, q: string)
    requires IsBlank(q)
    ensures Shown(e, q, AllStatuses)
  {
    assert |Lower(Trim(q))| == 0;
  }

  /** A blank query with "ALL" lists every row. */
  lemma BlankShowsAll(rows: seq<Equipment>, q: string)
    requires IsBlank(q)
    ensures EquipmentView(rows, q, AllStatuses) == rows
  {
    var p := e => Shown(e, q, AllStatuses);
    forall j | 0 <= j < |rows| ensures p(rows[j]) {
      ShownWhenBlank(rows[j], q);
    }
  }

  /** The four rows the page starts with; their ids come from `uid()`. */
  function Seed(id1: string, id2: string, id3: string, id4: string): seq<Equipment> {
    [ Equipment(id1, "Router", "Network", 5, Available),
      Equipment(id2, "Switch", "Network", 8, Available),
      Equipment(id3, "LAN Cable", "Accessory", 50, Available),
      Equipment(id4, "Notebook", "IT", 3, Maintenance) ]
  }

  class EquipmentPage {
    var rows: seq<Equipment>
    var open: bool
    var mode: Mode
    var form: EquipmentForm
    const seed: seq<Equipment>

    /** The page opens on the stored list, or on the sample rows when nothing is stored. */
    constructor(stored: Option<seq<Equipment>>, id1: string, id2: string, id3: string, id4: string)
      ensures seed == Seed(id1, id2, id3, id4)
      ensures rows == if stored.Some? then stored.value else seed
      ensures !open && mode == Create && form == BlankForm()
    {
      seed := Seed(id1, id2, id3, id4);
      rows := if stored.Some? then stored.value else Seed(id1, id2, id3, id4);
      open := false;
      mode := Create;
      form := BlankForm();
    }

    function Filtered(q: string, choice: StatusChoice): seq<Equipment>
      reads this
    {
      EquipmentView(rows, q, choice)
    }

    /** `openCreate` */
    method OpenCreate()
      modifies this`mode, this`form, this`open
      ensures mode == Create && form == BlankForm() && open
    {
      mode := Create;
      form := BlankForm();
      open := true;
    }

    /** `openEdit` */
    method OpenEdit(e: Equipment)
      modifies this`mode, this`form, this`open
      ensures mode == Edit && form == FormOf(e) && open
    {
      mode := Edit;
      form := FormOf(e);
      open := true;
    }

    /** `close` */
    method Close()
      modifies this`open
      ensures !open
    {
      open := false;
    }

    /** The field inputs of the modal; none of them touches the form's id. */
    method EditForm(name: string, category: string, quantity: Num, status: EquipmentStatus)
      modifies this`form
      ensures form == old(form).(name := name, category := category, quantity := quantity, status := status)
      ensures form.id == old(form.id)
    {
      form := form.(name := name, category := category, quantity := quantity, status := status);
    }

    /**
     * `onSave`: a rejected form is reported and changes nothing; otherwise a
     * new row goes first with a fresh id, an edit replaces the row with the
     * form's id, and the modal closes. Rows that pass the form's checks stay
     * so, and so do unique ids when a new row gets an id no row has.
     */
    method OnSave(freshId: string) returns (err: Option<EquipmentError>)
      modifies this`rows, this`open
      ensures err == Validate(old(form))
      ensures err.Some? ==> rows == old(rows) && open == old(open)
      ensures err.None? ==> form.quantity.Finite? && rows == Saved(old(rows), mode, form, freshId) && !open
      ensures err.None? && old(AllRowsOk(rows)) ==> AllRowsOk(rows)
      ensures err.None? && old(Unique(rows, EquipmentKey))
              && (mode == Create ==> forall i :: 0 <= i < |old(rows)| ==> old(rows)[i].id != freshId)
              ==> Unique(rows, EquipmentKey)
    {
      err := Validate(form);
      if err.None? {
        SavedKeepsInvariants(rows, mode, form, freshId);
        rows := Saved(rows, mode, form, freshId);
        open := false;
      }
    }

    /** `onDelete`: once confirmed, drop the rows with that id, keeping the others in order. */
    method OnDelete(id: string, confirmed: bool)
      modifies this`rows
      ensures confirmed ==> rows == Without(old(rows), EquipmentKey, id)
      ensures !confirmed ==> rows == old(rows)
      ensures forall i :: 0 <= i < |rows| ==> rows[i].id != id || !confirmed
    {
      if confirmed {
        rows := Without(rows, EquipmentKey, id);
      }
    }

    /** `onResetMock`: once confirmed, go back to the sample rows. */
    method OnResetMock(confirmed: bool)
      modifies this`rows
      ensures rows == if confirmed then seed else old(rows)
    {
      if confirmed {
        rows := seed;
      }
    }
  }

  /** Deleting the id of row k removes exactly that row. */
  lemma DeleteRemovesOne(rows: seq<Equipment>, k: nat)
    requires Unique(rows, EquipmentKey) && k < |rows|
    ensures Without(rows, EquipmentKey, rows[k].id) == rows[..k] + rows[k + 1..]
    ensures Unique(Without(rows, EquipmentKey, rows[k].id), EquipmentKey)
  {
    WithoutUnique(rows, EquipmentKey, k);
    WithoutKeepsUnique(rows, EquipmentKey, rows[k].id);
  }
}
