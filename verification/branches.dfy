/** The branch manager of the admin dashboard (`AdminBranches.tsx`): a list
    of office branches, a dialog that adds a new branch or edits the one
    chosen, and deletion by id. */
module BranchesAdmin {
  import opened Wrappers
  import Seqs

  datatype Branch = Branch(id: int, name: string, location: string, image: string)

  /** The dialog's form. */
  datatype BranchForm = BranchForm(name: string, location: string, image: string)

  /** The component state: the list, the branch being edited (`null` when
      the dialog adds), whether the dialog is open, and the form. */
  datatype Panel = Panel(branches: seq<Branch>, editing: Option<Branch>, dialogOpen: bool, form: BranchForm)

  /** The form's fields, named by the inputs' `name` attributes. */
  datatype Field = Name | Location | Image

  const BlankForm: BranchForm := BranchForm("", "", "")

  function InitialBranches(): seq<Branch>
  {
    [ Branch(1, "Kathmandu Branch", "Thamel, Kathmandu", "/images/branch1.jpg"),
      Branch(2, "Pokhara Branch", "Lakeside, Pokhara", "/images/branch2.jpg"),
      Branch(3, "Chitwan Branch", "Bharatpur, Chitwan", "/images/branch3.jpg"),
      Branch(4, "Butwal Branch", "Traffic Chowk, Butwal", "/images/branch4.jpg")]
  }

  function InitialPanel(): Panel
  {
    Panel(InitialBranches(), None, false, BlankForm)
  }

  predicate HasId(xs: seq<Branch>, id: int)
  {
    exists i :: 0 <= i < |xs| && xs[i].id == id
  }

  predicate UniqueIds(xs: seq<Branch>)
  {
    forall i, j :: 0 <= i < j < |xs| ==> xs[i].id != xs[j].id
  }

  /** The ids of a list, in order. */
  function Ids(xs: seq<Branch>): (ids: seq<int>)
    ensures |ids| == |xs|
    ensures forall i :: 0 <= i < |xs| ==> ids[i] == xs[i].id
  {
    if xs == [] then [] else [xs[0].id] + Ids(xs[1..])
  }

  /** The form filled from a branch. */
  function FormOf(b: Branch): BranchForm
  {
    BranchForm(b.name, b.location, b.image)
  }

  /** `{ ...branch, ...formData }`: the id stays, every other field comes
      from the form. */
  function Merge(b: Branch, f: BranchForm): (m: Branch)
    ensures m.id == b.id && FormOf(m) == f
  {
    Branch(b.id, f.name, f.location, f.image)
  }

  /** `branches.map(branch => branch.id === id ? { ...branch, ...form } : branch)`. */
  function Replace(xs: seq<Branch>, id: int, f: BranchForm): (ys: seq<Branch>)
    ensures Ids(ys) == Ids(xs)
    ensures forall i :: 0 <= i < |xs| && xs[i].id != id ==> ys[i] == xs[i]
    ensures forall i :: 0 <= i < |xs| && xs[i].id == id ==> FormOf(ys[i]) == f
  {
    if xs == [] then []
    else [if xs[0].id == id then Merge(xs[0], f) else xs[0]] + Replace(xs[1..], id, f)
  }

  /** `handleInputChange`: the named field takes the input's value. */
  function InputChange(p: Panel, field: Field, value: string): (q: Panel)
    ensures q.branches == p.branches && q.editing == p.editing && q.dialogOpen == p.dialogOpen
    ensures q.form.name == (if field == Name then value else p.form.name)
    ensures q.form.location == (if field == Location then value else p.form.location)
    ensures q.form.image == (if field == Image then value else p.form.image)
  {
    var f := p.form;
    match field
    case Name => p.(form := f.(name := value))
    case Location => p.(form := f.(location := value))
    case Image => p.(form := f.(image := value))
  }

  /** `handleSubmit`: when editing, every branch with the edited id takes the
      form's fields; otherwise a branch with id `now` (`Date.now()`) is
      appended. Either way the dialog closes and the form is cleared. */
  function Submit(p: Panel, now: int): (q: Panel)
    ensures !q.dialogOpen && q.editing.None? && q.form == BlankForm
    ensures p.editing.Some? ==> Ids(q.branches) == Ids(p.branches)
    ensures p.editing.Some? ==> forall i :: 0 <= i < |p.branches| ==>
      if p.branches[i].id == p.editing.value.id then FormOf(q.branches[i]) == p.form else q.branches[i] == p.branches[i]
    ensures p.editing.None? ==> |q.branches| == |p.branches| + 1 && q.branches[..|p.branches|] == p.branches
    ensures p.editing.None? ==> q.branches[|p.branches|].id == now && FormOf(q.branches[|p.branches|]) == p.form
  {
    var branches :=
      match p.editing
      case Some(b) => Replace(p.branches, b.id, p.form)
      case None => p.branches + [Merge(Branch(now, "", "", ""), p.form)];
    Panel(branches, None, false, BlankForm)
  }

  /** `handleEdit`: remember the branch, fill the form from it, open. */
  function Edit(p: Panel, b: Branch): (q: Panel)
    ensures q.branches == p.branches && q.editing == Some(b) && q.dialogOpen
    ensures Merge(b, q.form) == b
  {
    Panel(p.branches, Some(b), true, FormOf(b))
  }

  /** The filter predicate `branch => branch.id !== id`. */
  function KeepOther(id: int): Branch -> bool
  {
    (b: Branch) => b.id != id
  }

  /** `handleDelete`: drop every branch with the id. */
  function Delete(p: Panel, id: int): (q: Panel)
    ensures Seqs.IsSublist(q.branches, p.branches)
    ensures !HasId(q.branches, id)
    ensures forall b :: b in q.branches <==> b in p.branches && b.id != id
    ensures forall b :: multiset(q.branches)[b] == (if b.id != id then multiset(p.branches)[b] else 0)
    ensures q.editing == p.editing && q.dialogOpen == p.dialogOpen && q.form == p.form
  {
    var bs := Seqs.Filter(p.branches, KeepOther(id));
    assert forall b :: b in bs <==> b in p.branches && b.id != id by {
      forall b
        ensures b in bs <==> b in p.branches && b.id != id
      {
        Seqs.FilterMembership(p.branches, KeepOther(id), b);
      }
    }
    p.(branches := bs)
  }

  /** `handleAddNew`: forget any edit, clear the form, open. */
  function AddNew(p: Panel): (q: Panel)
    ensures q.branches == p.branches && q.editing.None? && q.dialogOpen && q.form == BlankForm
  {
    Panel(p.branches, None, true, BlankForm)
  }

  /** The Cancel button and the dialog's own close: only the dialog closes;
      the edit in progress and the form stay. */
  function Cancel(p: Panel): (q: Panel)
    ensures q.branches == p.branches && q.editing == p.editing && q.form == p.form && !q.dialogOpen
  {
    p.(dialogOpen := false)
  }

  /** Writing an entry's own fields back over its id changes nothing, when
      it is the only entry with that id. */
  lemma ReplaceOwnForm(xs: seq<Branch>, b: Branch)
    requires forall i :: 0 <= i < |xs| && xs[i].id == b.id ==> xs[i] == b
    ensures Replace(xs, b.id, FormOf(b)) == xs
  {
    var ys := Replace(xs, b.id, FormOf(b));
    assert |Ids(ys)| == |Ids(xs)|;
    forall i | 0 <= i < |xs| && xs[i].id == b.id
      ensures ys[i] == xs[i]
    {
      assert Ids(ys)[i] == Ids(xs)[i];
      SameFields(ys[i], xs[i]);
    }
  }

  /** With distinct ids, an entry of the list is the only one with its id. */
  lemma OnlyWithId(xs: seq<Branch>, b: Branch)
    requires b in xs && UniqueIds(xs)
    ensures forall i :: 0 <= i < |xs| && xs[i].id == b.id ==> xs[i] == b
  {
    var k :| 0 <= k < |xs| && xs[k] == b;
    forall i | 0 <= i < |xs| && xs[i].id == b.id
      ensures i == k
    {
    }
  }

  /** An entry is its id and its form fields. */
  lemma SameFields(x: Branch, y: Branch)
    requires x.id == y.id && FormOf(x) == FormOf(y)
    ensures x == y
  {
  }

  /** Opening a branch for editing and saving it unchanged leaves the list as
      it was, when ids are distinct. */
  lemma EditSubmitUnchanged(p: Panel, b: Branch, now: int)
    requires b in p.branches && UniqueIds(p.branches)
    ensures Submit(Edit(p, b), now).branches == p.branches
  {
    var e := Edit(p, b);
    assert e.editing == Some(b) && e.form == FormOf(b) && e.branches == p.branches;
    assert Submit(e, now).branches == Replace(p.branches, b.id, FormOf(b));
    OnlyWithId(p.branches, b);
    ReplaceOwnForm(p.branches, b);
  }

  /** The branches as mounted have distinct ids. */
  lemma InitialUniqueIds()
    ensures UniqueIds(InitialBranches())
  {
  }

  /** On the panel as mounted, opening any branch for editing and saving it
      untouched leaves the list as it was. */
  lemma EditSubmitInitial(b: Branch, now: int)
    requires b in InitialBranches()
    ensures Submit(Edit(InitialPanel(), b), now).branches == InitialBranches()
  {
    InitialUniqueIds();
    EditSubmitUnchanged(InitialPanel(), b, now);
  }

  lemma {:induction false} WithoutAbsent(xs: seq<Branch>, id: int)
    requires !HasId(xs, id)
    ensures Seqs.Filter(xs, KeepOther(id)) == xs
  {
    Seqs.FilterAll(xs, KeepOther(id));
  }

  /** Adding a branch and deleting it again restores the list, when the new
      id was not already taken. */
  lemma AddDeleteRoundTrip(p: Panel, now: int)
    requires p.editing.None? && !HasId(p.branches, now)
    ensures Delete(Submit(p, now), now).branches == p.branches
  {
    var added := Submit(p, now).branches;
    var newest := added[|p.branches|];
    assert added == p.branches + [newest];
    Seqs.FilterSnoc(p.branches, newest, KeepOther(now));
    WithoutAbsent(p.branches, now);
  }

  /** Deleting an id no branch has changes nothing. */
  lemma DeleteUnknown(p: Panel, id: int)
    requires !HasId(p.branches, id)
    ensures Delete(p, id) == p
  {
    WithoutAbsent(p.branches, id);
  }
}
