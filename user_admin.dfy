/**
 * The users page: the stored list of borrowers, searched by name, student
 * id or phone, and edited through a modal form that refuses a student id
 * another user already has.
 */
module UserAdmin {
  import opened Common
  import opened Text
  import opened Entities

  /** The three messages `validate` can return, in the order it checks them. */
  datatype UserError = MissingFullName | MissingStudentId | DuplicateStudentId

  function StudentKey(u: User): string { u.studentId }

  /** The form `openCreate` opens with; `openEdit` opens with a copy of the row. */
  function BlankForm(): User {
    User("", "", "", "")
  }

  /** `rows.find(x => x.student_id === form.student_id && x.id !== form.id)` finds a row. */
  predicate TakenByOther(rows: seq<User>, form: User) {
    exists i :: 0 <= i < |rows| && rows[i].studentId == form.studentId && rows[i].id != form.id
  }

  /** `validate`: the first failed check, or None when the form may be saved. */
  function Validate(rows: seq<User>, form: User): (r: Option<UserError>)
    ensures r.None? <==> !IsBlank(form.fullName) && !IsBlank(form.studentId) && !TakenByOther(rows, form)
    ensures r == Some(MissingFullName) <==> IsBlank(form.fullName)
    ensures r == Some(MissingStudentId) <==> !IsBlank(form.fullName) && IsBlank(form.studentId)
  {
    if IsBlank(form.fullName) then Some(MissingFullName)
    else if IsBlank(form.studentId) then Some(MissingStudentId)
    else if TakenByOther(rows, form) then Some(DuplicateStudentId)
    else None
  }

  /** Editing a user without changing the student id never reports it as taken. */
  lemma OwnStudentIdPasses(rows: seq<User>, k: nat)
    requires Unique(rows, StudentKey) && k < |rows|
    ensures !TakenByOther(rows, rows[k])
  {
    forall i | 0 <= i < |rows| && i != k ensures rows[i].studentId != rows[k].studentId {
      if i < k {
        assert StudentKey(rows[i]) != StudentKey(rows[k]);
      } else {
        assert StudentKey(rows[k]) != StudentKey(rows[i]);
      }
    }
  }

  /**
   * A new user that passed `validate`, with a form id no user has, keeps the
   * student ids unique.
   */
  lemma CreateKeepsStudentIdsUnique(rows: seq<User>, form: User, freshId: string)
    requires Unique(rows, StudentKey)
    requires forall i :: 0 <= i < |rows| ==> rows[i].id != form.id
    requires !TakenByOther(rows, form)
    ensures Unique([form.(id := freshId)] + rows, StudentKey)
  {
    PrependKeepsUnique(form.(id := freshId), rows, StudentKey);
  }

  /** An edit that passed `validate` keeps the student ids unique when user ids are unique. */
  lemma EditKeepsStudentIdsUnique(rows: seq<User>, form: User)
    requires Unique(rows, UserKey) && Unique(rows, StudentKey)
    requires !TakenByOther(rows, form)
    ensures Unique(Replace(rows, UserKey, form.id, form), StudentKey)
  {
    var r := Replace(rows, UserKey, form.id, form);
    forall i, j | 0 <= i < j < |r| ensures StudentKey(r[i]) != StudentKey(r[j]) {
      if rows[i].id == form.id {
        assert UserKey(rows[i]) != UserKey(rows[j]);
      } else if rows[j].id == form.id {
        assert rows[i].studentId != form.studentId;
      }
    }
  }

  /** The rows after a save that passed `validate`: a new user in front, or the edited one in place. */
  function Saved(rows: seq<User>, mode: Mode, form: User, freshId: string): (r: seq<User>)
    ensures mode == Create ==> |r| == |rows| + 1 && r[0] == form.(id := freshId) && r[1..] == rows
    ensures mode == Edit ==> |r| == |rows|
    ensures mode == Edit ==> forall j :: 0 <= j < |rows| && rows[j].id == form.id ==> r[j] == form
    ensures mode == Edit ==> forall j :: 0 <= j < |rows| && rows[j].id != form.id ==> r[j] == rows[j]
  {
    if mode == Create then [form.(id := freshId)] + rows else Replace(rows, UserKey, form.id, form)
  }

  /**
   * A save that passed the duplicate check keeps student ids unique: on
   * create when the form's id is no user's id, on edit when user ids are
   * unique. User ids stay unique when a new user gets an id no user has.
   */
  lemma SavedKeepsUnique(rows: seq<User>, mode: Mode, form: User, freshId: string)
    requires !TakenByOther(rows, form)
    ensures Unique(rows, StudentKey)
            && (mode == Create ==> forall i :: 0 <= i < |rows| ==> rows[i].id != form.id)
            && (mode == Edit ==> Unique(rows, UserKey))
            ==> Unique(Saved(rows, mode, form, freshId), StudentKey)
    ensures Unique(rows, UserKey)
            && (mode == Create ==> forall i :: 0 <= i < |rows| ==> rows[i].id != freshId)
            ==> Unique(Saved(rows, mode, form, freshId), UserKey)
  {
    if mode == Create {
      if Unique(rows, StudentKey) && forall i :: 0 <= i < |rows| ==> rows[i].id != form.id {
        CreateKeepsStudentIdsUnique(rows, form, freshId);
      }
      if Unique(rows, UserKey) && forall i :: 0 <= i < |rows| ==> rows[i].id != freshId {
        PrependKeepsUnique(form.(id := freshId), rows, UserKey);
      }
    } else if Unique(rows, UserKey) {
      ReplaceInPlace(rows, UserKey, form);
      if Unique(rows, StudentKey) {
        EditKeepsStudentIdsUnique(rows, form);
      }
    }
  }

  /** The text filter, with s the trimmed lower-cased query; an empty query matches every user. */
  predicate MatchesText(u: User, s: string) {
    s == ""
    || Includes(Lower(u.fullName), s)
    || Includes(Lower(u.studentId), s)
    || Includes(Lower(u.phone), s)
  }

  /** `filtered`: every row for an empty query, otherwise the matching rows in stored order. */
  function UserView(rows: seq<User>, q: string): (r: seq<User>)
    ensures forall u :: u in r <==> u in rows && MatchesText(u, Lower(Trim(q)))
  {
    var s := Lower(Trim(q));
    if s == "" then rows
    else
      var p := u => MatchesText(u, s);
      FilterMembers(rows, p);
      Filter(rows, p)
  }

  /** A blank query lists every row, in order. */
  lemma BlankShowsAll(rows: seq<User>, q: string)
    requires IsBlank(q)
    ensures UserView(rows, q) == rows
  {
    assert |Lower(Trim(q))| == 0;
  }

  /** The four users the page starts with; their ids come from `uid()`. */
  function Seed(id1: string, id2: string, id3: string, id4: string): seq<User> {
    [ User(id1, "นาย เจตริล เจริญทอง", "6706022510425", "09xxxxxxxx"),
      User(id2, "นาย ธนพัฒน์ นิลคูหา", "6706022510441", "09xxxxxxxx"),
      User(id3, "นาย บวร ลิ้มประเสริฐ", "6706022510450", "09xxxxxxxx"),
      User(id4, "นาย ชนาธิป จุรุเทียบ", "6706022510468", "09xxxxxxxx") ]
  }

  class UsersPage {
    var rows: seq<User>
    var open: bool
    var mode: Mode
    var form: User
    const seed: seq<User>

    /** The page opens on the stored list, or on the sample users when nothing is stored. */
    constructor(stored: Option<seq<User>>, id1: string, id2: string, id3: string, id4: string)
      ensures seed == Seed(id1, id2, id3, id4)
      ensures rows == if stored.Some? then stored.value else seed
      ensures !open && mode == Create && form == BlankForm()
    {
      seed := Seed(id1, id2, id3, id4);
      rows := if stored.Some? then stored.value else Seed(id1, id2, id3, id4);
      open := false;
      mode := Create;
      form := BlankForm();
    }

    function Filtered(q: string): seq<User>
      reads this
    {
      UserView(rows, q)
    }

    /** `openCreate` */
    method OpenCreate()
      modifies this`mode, this`form, this`open
      ensures mode == Create && form == BlankForm() && open
    {
      mode := Create;
      form := BlankForm();
      open := true;
    }

    /** `openEdit` */
    method OpenEdit(u: User)
      modifies this`mode, this`form, this`open
      ensures mode == Edit && form == u && open
    {
      mode := Edit;
      form := u;
      open := true;
    }

    /** `close` */
    method Close()
      modifies this`open
      ensures !open
    {
      open := false;
    }

    /** The field inputs of the modal; none of them touches the form's id. */
    method EditForm(fullName: string, studentId: string, phone: string)
      modifies this`form
      ensures form == old(form).(fullName := fullName, studentId := studentId, phone := phone)
      ensures form.id == old(form.id)
    {
      form := form.(fullName := fullName, studentId := studentId, phone := phone);
    }

    /**
     * `onSave`: a rejected form is reported and changes nothing; otherwise a
     * new user goes first with a fresh id, an edit replaces the user with the
     * form's id, and the modal closes. Unique student ids stay unique.
     */
    method OnSave(freshId: string) returns (err: Option<UserError>)
      modifies this`rows, this`open
      ensures err == Validate(old(rows), old(form))
      ensures err.Some? ==> rows == old(rows) && open == old(open)
      ensures err.None? ==> rows == Saved(old(rows), mode, form, freshId) && !open
      ensures err.None? && old(Unique(rows, StudentKey))
              && (mode == Create ==> forall i :: 0 <= i < |old(rows)| ==> old(rows)[i].id != form.id)
              && (mode == Edit ==> old(Unique(rows, UserKey)))
              ==> Unique(rows, StudentKey)
    {
      err := Validate(rows, form);
      if err.None? {
        SavedKeepsUnique(rows, mode, form, freshId);
        if mode == Create {
          rows := [form.(id := freshId)] + rows;
        } else {
          rows := Replace(rows, UserKey, form.id, form);
        }
        open := false;
      }
    }

    /** `onDelete`: once confirmed, drop the users with that id, keeping the others in order. */
    method OnDelete(id: string, confirmed: bool)
      modifies this`rows
      ensures confirmed ==> rows == Without(old(rows), UserKey, id)
      ensures !confirmed ==> rows == old(rows)
    {
      if confirmed {
        rows := Without(rows, UserKey, id);
      }
    }

    /** `onResetMock`: once confirmed, go back to the sample users. */
    method OnResetMock(confirmed: bool)
      modifies this`rows
      ensures rows == if confirmed then seed else old(rows)
    {
      if confirmed {
        rows := seed;
      }
    }
  }

  /** With unique ids, deleting the id of user k removes exactly that user. */
  lemma DeleteRemovesOne(rows: seq<User>, k: nat)
    requires Unique(rows, UserKey) && k < |rows|
    ensures Without(rows, UserKey, rows[k].id) == rows[..k] + rows[k + 1..]
  {
    WithoutUnique(rows, UserKey, k);
  }
}
