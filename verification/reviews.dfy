/** The client-review manager of the admin dashboard (`AdminReviews.tsx`):
    a list of reviews, a dialog that adds a new review or edits the one
    chosen, and deletion by id. */
module ReviewsAdmin {
  import opened Wrappers
  import Seqs
  import Text

  /** A review. The rating is whatever `parseInt` made of the select's
      value, so it may be `NaN`, written `None`. */
  datatype Review = Review(id: int, name: string, rating: Option<int>, review: string, image: string)

  /** The dialog's form. */
  datatype ReviewForm = ReviewForm(name: string, rating: Option<int>, review: string, image: string)

  /** The component state: the list, the review being edited (`null` when
      the dialog adds), whether the dialog is open, and the form. */
  datatype Panel = Panel(reviews: seq<Review>, editing: Option<Review>, dialogOpen: bool, form: ReviewForm)

  /** The form's fields, named by the inputs' `name` attributes. */
  datatype Field = Name | Rating | ReviewText | Image

  /** The empty form, five stars preselected. */
  const BlankForm: ReviewForm := ReviewForm("", Some(5), "", "")

  function InitialReviews(): seq<Review>
  {
    [ Review(1, "राम बहादुर श्रेष्ठ", Some(5), "उत्कृष्ट सेवा! तिनीहरूले मलाई मेरो सपनाको घर फेला पार्न मद्दत गरे। धेरै पेशेवर र भरपर्दो।",
        "https://images.unsplash.com/photo-1507003211169-0a1dd7228f2d?w=150&h=150&fit=crop&crop=face"),
      Review(2, "सुनिता गुरुङ", Some(5), "अचम्मको अनुभव! उनीहरूको टोली धेरै सहयोगी र जानकार थियो। मैले मेरो संपत्ति छिट्टै बेच्न सक्नुभयो।",
        "https://images.unsplash.com/photo-1494790108755-2616b4cf9c85?w=150&h=150&fit=crop&crop=face"),
      Review(3, "अमित पौडेल", Some(4), "राम्रो सेवा र उचित मूल्य। म सन्तुष्ट छु र अरूलाई सिफारिस गर्छु।",
        "https://images.unsplash.com/photo-1472099645785-5658abf4ff4e?w=150&h=150&fit=crop&crop=face")]
  }

  function InitialPanel(): Panel
  {
    Panel(InitialReviews(), None, false, BlankForm)
  }

  predicate HasId(xs: seq<Review>, id: int)
  {
    exists i :: 0 <= i < |xs| && xs[i].id == id
  }

  predicate UniqueIds(xs: seq<Review>)
  {
    forall i, j :: 0 <= i < j < |xs| ==> xs[i].id != xs[j].id
  }

  /** The ids of a list, in order. */
  function Ids(xs: seq<Review>): (ids: seq<int>)
    ensures |ids| == |xs|
    ensures forall i :: 0 <= i < |xs| ==> ids[i] == xs[i].id
  {
    if xs == [] then [] else [xs[0].id] + Ids(xs[1..])
  }

  /** The form filled from a review. */
  function FormOf(r: Review): ReviewForm
  {
    ReviewForm(r.name, r.rating, r.review, r.image)
  }

  /** `{ ...review, ...formData }`: the id stays, every other field comes
      from the form. */
  function Merge(r: Review, f: ReviewForm): (m: Review)
    ensures m.id == r.id && FormOf(m) == f
  {
    Review(r.id, f.name, f.rating, f.review, f.image)
  }

  /** `reviews.map(review => review.id === id ? { ...review, ...form } : review)`. */
  function Replace(xs: seq<Review>, id: int, f: ReviewForm): (ys: seq<Review>)
    ensures Ids(ys) == Ids(xs)
    ensures forall i :: 0 <= i < |xs| && xs[i].id != id ==> ys[i] == xs[i]
    ensures forall i :: 0 <= i < |xs| && xs[i].id == id ==> FormOf(ys[i]) == f
  {
    if xs == [] then []
    else [if xs[0].id == id then Merge(xs[0], f) else xs[0]] + Replace(xs[1..], id, f)
  }

  /** `handleInputChange`: the named field takes the input's value; the
      rating goes through `parseInt`. */
  function InputChange(p: Panel, field: Field, value: string): (q: Panel)
    ensures q.reviews == p.reviews && q.editing == p.editing && q.dialogOpen == p.dialogOpen
    ensures q.form.name == (if field == Name then value else p.form.name)
    ensures q.form.rating == (if field == Rating then Text.ParseInt(value) else p.form.rating)
    ensures q.form.review == (if field == ReviewText then value else p.form.review)
    ensures q.form.image == (if field == Image then value else p.form.image)
  {
    var f := p.form;
    match field
    case Name => p.(form := f.(name := value))
    case Rating => p.(form := f.(rating := Text.ParseInt(value)))
    case ReviewText => p.(form := f.(review := value))
    case Image => p.(form := f.(image := value))
  }

  /** `handleSubmit`: when editing, every review with the edited id takes the
      form's fields; otherwise a review with id `now` (`Date.now()`) is
      appended. Either way the dialog closes and the form is cleared. */
  function Submit(p: Panel, now: int): (q: Panel)
    ensures !q.dialogOpen && q.editing.None? && q.form == BlankForm
    ensures p.editing.Some? ==> Ids(q.reviews) == Ids(p.reviews)
    ensures p.editing.Some? ==> forall i :: 0 <= i < |p.reviews| ==>
      if p.reviews[i].id == p.editing.value.id then FormOf(q.reviews[i]) == p.form else q.reviews[i] == p.reviews[i]
    ensures p.editing.None? ==> |q.reviews| == |p.reviews| + 1 && q.reviews[..|p.reviews|] == p.reviews
    ensures p.editing.None? ==> q.reviews[|p.reviews|].id == now && FormOf(q.reviews[|p.reviews|]) == p.form
  {
    var reviews :=
      match p.editing
      case Some(r) => Replace(p.reviews, r.id, p.form)
      case None => p.reviews + [Merge(Review(now, "", None, "", ""), p.form)];
    Panel(reviews, None, false, BlankForm)
  }

  /** `handleEdit`: remember the review, fill the form from it, open. */
  function Edit(p: Panel, r: Review): (q: Panel)
    ensures q.reviews == p.reviews && q.editing == Some(r) && q.dialogOpen
    ensures Merge(r, q.form) == r
  {
    Panel(p.reviews, Some(r), true, FormOf(r))
  }

  /** The filter predicate `review => review.id !== id`. */
  function KeepOther(id: int): Review -> bool
  {
    (r: Review) => r.id != id
  }

  /** `handleDelete`: drop every review with the id. */
  function Delete(p: Panel, id: int): (q: Panel)
    ensures Seqs.IsSublist(q.reviews, p.reviews)
    ensures !HasId(q.reviews, id)
    ensures forall r :: r in q.reviews <==> r in p.reviews && r.id != id
    ensures forall r :: multiset(q.reviews)[r] == (if r.id != id then multiset(p.reviews)[r] else 0)
    ensures q.editing == p.editing && q.dialogOpen == p.dialogOpen && q.form == p.form
  {
    var rs := Seqs.Filter(p.reviews, KeepOther(id));
    assert forall r :: r in rs <==> r in p.reviews && r.id != id by {
      forall r
        ensures r in rs <==> r in p.reviews && r.id != id
      {
        Seqs.FilterMembership(p.reviews, KeepOther(id), r);
      }
    }
    p.(reviews := rs)
  }

  /** `handleAddNew`: forget any edit, clear the form, open. */
  function AddNew(p: Panel): (q: Panel)
    ensures q.reviews == p.reviews && q.editing.None? && q.dialogOpen && q.form == BlankForm
  {
    Panel(p.reviews, None, true, BlankForm)
  }

  /** The Cancel button and the dialog's own close: only the dialog closes;
      the edit in progress and the form stay. */
  function Cancel(p: Panel): (q: Panel)
    ensures q.reviews == p.reviews && q.editing == p.editing && q.form == p.form && !q.dialogOpen
  {
    p.(dialogOpen := false)
  }

  /** Writing an entry's own fields back over its id changes nothing, when
      it is the only entry with that id. */
  lemma ReplaceOwnForm(xs: seq<Review>, r: Review)
    requires forall i :: 0 <= i < |xs| && xs[i].id == r.id ==> xs[i] == r
    ensures Replace(xs, r.id, FormOf(r)) == xs
  {
    var ys := Replace(xs, r.id, FormOf(r));
    assert |Ids(ys)| == |Ids(xs)|;
    forall i | 0 <= i < |xs| && xs[i].id == r.id
      ensures ys[i] == xs[i]
    {
      assert Ids(ys)[i] == Ids(xs)[i];
      SameFields(ys[i], xs[i]);
    }
  }

  /** With distinct ids, an entry of the list is the only one with its id. */
  lemma OnlyWithId(xs: seq<Review>, r: Review)
    requires r in xs && UniqueIds(xs)
    ensures forall i :: 0 <= i < |xs| && xs[i].id == r.id ==> xs[i] == r
  {
    var k :| 0 <= k < |xs| && xs[k] == r;
    forall i | 0 <= i < |xs| && xs[i].id == r.id
      ensures i == k
    {
    }
  }

  /** An entry is its id and its form fields. */
  lemma SameFields(x: Review, y: Review)
    requires x.id == y.id && FormOf(x) == FormOf(y)
    ensures x == y
  {
  }

  /** Opening a review for editing and saving it unchanged leaves the list as
      it was, when ids are distinct. */
  lemma EditSubmitUnchanged(p: Panel, r: Review, now: int)
    requires r in p.reviews && UniqueIds(p.reviews)
    ensures Submit(Edit(p, r), now).reviews == p.reviews
  {
    var e := Edit(p, r);
    assert e.editing == Some(r) && e.form == FormOf(r) && e.reviews == p.reviews;
    assert Submit(e, now).reviews == Replace(p.reviews, r.id, FormOf(r));
    OnlyWithId(p.reviews, r);
    ReplaceOwnForm(p.reviews, r);
  }

  /** The reviews as mounted have distinct ids. */
  lemma InitialUniqueIds()
    ensures UniqueIds(InitialReviews())
  {
  }

  /** On the panel as mounted, opening any review for editing and saving it
      untouched leaves the list as it was. */
  lemma EditSubmitInitial(r: Review, now: int)
    requires r in InitialReviews()
    ensures Submit(Edit(InitialPanel(), r), now).reviews == InitialReviews()
  {
    InitialUniqueIds();
    EditSubmitUnchanged(InitialPanel(), r, now);
  }

  lemma {:induction false} WithoutAbsent(xs: seq<Review>, id: int)
    requires !HasId(xs, id)
    ensures Seqs.Filter(xs, KeepOther(id)) == xs
  {
    Seqs.FilterAll(xs, KeepOther(id));
  }

  /** Adding a review and deleting it again restores the list, when the new
      id was not already taken. */
  lemma AddDeleteRoundTrip(p: Panel, now: int)
    requires p.editing.None? && !HasId(p.reviews, now)
    ensures Delete(Submit(p, now), now).reviews == p.reviews
  {
    var added := Submit(p, now).reviews;
    var newest := added[|p.reviews|];
    assert added == p.reviews + [newest];
    Seqs.FilterSnoc(p.reviews, newest, KeepOther(now));
    WithoutAbsent(p.reviews, now);
  }

  /** Deleting an id no review has changes nothing. */
  lemma DeleteUnknown(p: Panel, id: int)
    requires !HasId(p.reviews, id)
    ensures Delete(p, id) == p
  {
    WithoutAbsent(p.reviews, id);
  }

  /** The rating select's value, written as a number, comes back as that
      number. */
  lemma RatingRoundTrip(p: Panel, n: int)
    ensures InputChange(p, Rating, Text.Show(n)).form.rating == Some(n)
  {
    Text.ParseShow(n);
  }
}
