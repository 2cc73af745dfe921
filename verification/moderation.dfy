/** The property moderation of the admin dashboard (`Admin.tsx`): a list of
    published properties, a list of pending submissions, the add-property
    form, and the add, delete, approve and reject handlers. Every handler is
    a no-op on an id it does not find. */
module Moderation {
  import opened Wrappers
  import Seqs
  import Text

  datatype Status = Active | Pending

  /** A property as the dashboard keeps it. `price` is `None` when the typed
      price did not parse (`NaN`); the mock entries carry no description and
      only submissions carry a submission date. */
  datatype Property = Property(
    id: int,
    title: string,
    kind: string,
    price: Option<int>,
    location: string,
    bedrooms: int,
    bathrooms: int,
    area: int,
    description: Option<string>,
    status: Status,
    image: string,
    submittedAt: Option<string>)

  /** The add-property form; every field holds the raw text typed. */
  datatype PropertyForm = PropertyForm(
    title: string,
    kind: string,
    price: string,
    location: string,
    bedrooms: string,
    bathrooms: string,
    area: string,
    description: string,
    image: string)

  datatype Dashboard = Dashboard(properties: seq<Property>, pending: seq<Property>, form: PropertyForm)

  const PlaceholderImage: string := "/placeholder.svg"

  /** The form as first shown and as reset after a successful add. */
  const BlankForm: PropertyForm := PropertyForm("", "sale", "", "", "", "", "", "", "")

  /** The dashboard as mounted, from the mock data. */
  function InitialDashboard(): Dashboard
  {
    Dashboard(
      [ Property(1, "Modern Villa in Downtown", "sale", Some(850000), "Downtown", 4, 3, 2500, None, Active, PlaceholderImage, None),
        Property(2, "Cozy Apartment for Rent", "rent", Some(2500), "Midtown", 2, 2, 1200, None, Active, PlaceholderImage, None)],
      [ Property(3, "Luxury Penthouse", "sale", Some(1200000), "Uptown", 3, 2, 1800, None, Pending, PlaceholderImage, Some("2024-01-15"))],
      BlankForm)
  }

  predicate HasId(xs: seq<Property>, id: int)
  {
    exists i :: 0 <= i < |xs| && xs[i].id == id
  }

  predicate UniqueIds(xs: seq<Property>)
  {
    forall i, j :: 0 <= i < j < |xs| ==> xs[i].id != xs[j].id
  }

  /** `xs[i]` is the first entry with the id. */
  predicate FirstWithId(xs: seq<Property>, id: int, i: int)
  {
    0 <= i < |xs| && xs[i].id == id && forall j :: 0 <= j < i ==> xs[j].id != id
  }

  /** `xs.find(p => p.id === id)`. */
  function Find(xs: seq<Property>, id: int): (r: Option<Property>)
    ensures r.None? <==> !HasId(xs, id)
    ensures r.Some? ==> exists i :: FirstWithId(xs, id, i) && r.value == xs[i]
  {
    if xs == [] then None
    else if xs[0].id == id then
      assert FirstWithId(xs, id, 0);
      Some(xs[0])
    else
      var r := Find(xs[1..], id);
      if r.Some? then
        var i :| FirstWithId(xs[1..], id, i) && r.value == xs[1..][i];
        assert FirstWithId(xs, id, i + 1);
        r
      else
        assert forall i :: 0 <= i < |xs| && xs[i].id == id ==> i == 0 || xs[1..][i - 1].id == id;
        r
  }

  /** The filter predicate `p => p.id !== id`. */
  function KeepOther(id: int): Property -> bool
  {
    (p: Property) => p.id != id
  }

  /** `xs.filter(p => p.id !== id)`. */
  function WithoutId(xs: seq<Property>, id: int): (r: seq<Property>)
    ensures Seqs.IsSublist(r, xs)
    ensures !HasId(r, id)
    ensures forall p :: multiset(r)[p] == (if p.id != id then multiset(xs)[p] else 0)
    ensures !HasId(xs, id) ==> r == xs
  {
    if HasId(xs, id) then Seqs.Filter(xs, KeepOther(id))
    else
      Seqs.FilterAll(xs, KeepOther(id));
      Seqs.Filter(xs, KeepOther(id))
  }

  /** With distinct ids, removing a present id drops exactly one entry. */
  lemma {:induction false} WithoutIdLength(xs: seq<Property>, id: int)
    requires UniqueIds(xs)
    ensures |WithoutId(xs, id)| == |xs| - (if HasId(xs, id) then 1 else 0)
  {
    CountKeepOther(xs, id);
  }

  lemma {:induction false} CountKeepOther(xs: seq<Property>, id: int)
    requires UniqueIds(xs)
    ensures Seqs.Count(xs, KeepOther(id)) == |xs| - (if HasId(xs, id) then 1 else 0)
  {
    if xs != [] {
      CountKeepOther(xs[1..], id);
      if xs[0].id == id {
        assert !HasId(xs[1..], id);
      } else {
        assert HasId(xs, id) <==> HasId(xs[1..], id) by {
          if HasId(xs, id) {
            var i :| 0 <= i < |xs| && xs[i].id == id;
            assert xs[1..][i - 1].id == id;
          }
          if HasId(xs[1..], id) {
            var i :| 0 <= i < |xs[1..]| && xs[1..][i].id == id;
            assert xs[i + 1].id == id;
          }
        }
      }
    }
  }

  predicate IsComplete(form: PropertyForm)
  {
    form.title != "" && form.price != "" && form.location != ""
  }

  /** The record `handleAddProperty` builds from the form and the clock
      value `now`. */
  function FromForm(form: PropertyForm, now: int): Property
  {
    Property(
      now, form.title, form.kind, Text.ParseInt(form.price), form.location,
      Text.ParseInt(form.bedrooms).GetOr(0),
      Text.ParseInt(form.bathrooms).GetOr(0),
      Text.ParseInt(form.area).GetOr(0),
      Some(form.description), Active,
      if form.image == "" then PlaceholderImage else form.image,
      None)
  }

  /** `handleAddProperty`: rejects a form missing the title, price or
      location; otherwise appends the new property and resets the form. */
  function AddProperty(d: Dashboard, now: int): (r: Dashboard)
    ensures !IsComplete(d.form) ==> r == d
    ensures IsComplete(d.form) ==>
      && |r.properties| == |d.properties| + 1
      && r.properties[..|d.properties|] == d.properties
      && r.properties[|d.properties|] == FromForm(d.form, now)
      && r.pending == d.pending
      && r.form == BlankForm
  {
    if !IsComplete(d.form) then d
    else Dashboard(d.properties + [FromForm(d.form, now)], d.pending, BlankForm)
  }

  /** The numbers of a property added from decimal text are those numbers,
      and a blank or unreadable count becomes 0; an empty image field gets
      the placeholder. */
  lemma FromFormNumbers(form: PropertyForm, now: int, price: int, bedrooms: int)
    requires form.price == Text.Show(price) && form.bedrooms == Text.Show(bedrooms)
    requires Text.ParseInt(form.area) == None
    ensures FromForm(form, now).price == Some(price)
    ensures FromForm(form, now).bedrooms == bedrooms
    ensures FromForm(form, now).area == 0
    ensures FromForm(form, now).status == Active && FromForm(form, now).id == now
    ensures (FromForm(form, now).image == PlaceholderImage) <==> (form.image == "" || form.image == PlaceholderImage)
  {
    Text.ParseShow(price);
    Text.ParseShow(bedrooms);
  }

  /** `handleDeleteProperty`. */
  function DeleteProperty(d: Dashboard, id: int): (r: Dashboard)
    ensures Seqs.IsSublist(r.properties, d.properties) && !HasId(r.properties, id)
    ensures forall p :: multiset(r.properties)[p] == (if p.id != id then multiset(d.properties)[p] else 0)
    ensures r.pending == d.pending && r.form == d.form
    ensures !HasId(d.properties, id) ==> r == d
  {
    d.(properties := WithoutId(d.properties, id))
  }

  /** `handleApproveProperty`: the first pending entry with the id is
      published as it is, apart from its status, and every pending entry with
      the id is dropped. */
  function Approve(d: Dashboard, id: int): (r: Dashboard)
    ensures !HasId(d.pending, id) ==> r == d
    ensures HasId(d.pending, id) ==>
      && |r.properties| == |d.properties| + 1
      && r.properties[..|d.properties|] == d.properties
      && (exists i :: FirstWithId(d.pending, id, i) && r.properties[|d.properties|] == d.pending[i].(status := Active))
      && r.pending == WithoutId(d.pending, id)
    ensures !HasId(r.pending, id) && r.form == d.form
  {
    match Find(d.pending, id)
    case None => d
    case Some(p) => d.(properties := d.properties + [p.(status := Active)], pending := WithoutId(d.pending, id))
  }

  /** `handleRejectProperty`: drops the pending entries with the id and never
      touches the published list. */
  function Reject(d: Dashboard, id: int): (r: Dashboard)
    ensures r.properties == d.properties && r.form == d.form
    ensures Seqs.IsSublist(r.pending, d.pending) && !HasId(r.pending, id)
    ensures forall p :: multiset(r.pending)[p] == (if p.id != id then multiset(d.pending)[p] else 0)
    ensures !HasId(d.pending, id) ==> r == d
  {
    d.(pending := WithoutId(d.pending, id))
  }

  /** Approving an id a second time changes nothing. */
  lemma ApproveIdempotent(d: Dashboard, id: int)
    ensures Approve(Approve(d, id), id) == Approve(d, id)
  {
  }

  /** With distinct pending ids, approving moves exactly one entry across:
      the published list grows by one, the pending list shrinks by one, and
      the total is unchanged. */
  lemma ApproveMovesOne(d: Dashboard, id: int)
    requires UniqueIds(d.pending) && HasId(d.pending, id)
    ensures |Approve(d, id).properties| == |d.properties| + 1
    ensures |Approve(d, id).pending| == |d.pending| - 1
    ensures |Approve(d, id).properties| + |Approve(d, id).pending| == |d.properties| + |d.pending|
  {
    WithoutIdLength(d.pending, id);
  }

  /** Rejecting a present id with distinct pending ids removes exactly one
      submission and publishes nothing. */
  lemma RejectRemovesOne(d: Dashboard, id: int)
    requires UniqueIds(d.pending) && HasId(d.pending, id)
    ensures |Reject(d, id).pending| == |d.pending| - 1
    ensures Reject(d, id).properties == d.properties
  {
    WithoutIdLength(d.pending, id);
  }

  /** Every published property is active and every submission pending. */
  predicate StatusesConsistent(d: Dashboard)
  {
    && (forall i :: 0 <= i < |d.properties| ==> d.properties[i].status == Active)
    && (forall i :: 0 <= i < |d.pending| ==> d.pending[i].status == Pending)
  }

  lemma SublistStatuses(a: seq<Property>, b: seq<Property>, s: Status)
    requires Seqs.IsSublist(a, b)
    requires forall i :: 0 <= i < |b| ==> b[i].status == s
    ensures forall i :: 0 <= i < |a| ==> a[i].status == s
  {
    forall i | 0 <= i < |a|
      ensures a[i].status == s
    {
      assert a[i] in multiset(a);
      SublistMultiset(a, b);
      assert a[i] in multiset(b);
    }
  }

  lemma {:induction false} SublistMultiset(a: seq<Property>, b: seq<Property>)
    requires Seqs.IsSublist(a, b)
    ensures multiset(a) <= multiset(b)
    decreases |b|
  {
    if a != [] {
      if a[0] == b[0] {
        SublistMultiset(a[1..], b[1..]);
        assert a == [a[0]] + a[1..] && b == [b[0]] + b[1..];
      } else {
        SublistMultiset(a, b[1..]);
        assert b == [b[0]] + b[1..];
      }
    }
  }

  lemma InitialStatuses()
    ensures StatusesConsistent(InitialDashboard())
  {
  }

  /** Every handler keeps the statuses consistent. */
  lemma StatusesPreserved(d: Dashboard, id: int, now: int)
    requires StatusesConsistent(d)
    ensures StatusesConsistent(AddProperty(d, now))
    ensures StatusesConsistent(DeleteProperty(d, id))
    ensures StatusesConsistent(Approve(d, id))
    ensures StatusesConsistent(Reject(d, id))
  {
    AddKeepsStatuses(d, now);
    DeleteKeepsStatuses(d, id);
    ApproveKeepsStatuses(d, id);
    RejectKeepsStatuses(d, id);
  }

  lemma AddKeepsStatuses(d: Dashboard, now: int)
    requires StatusesConsistent(d)
    ensures StatusesConsistent(AddProperty(d, now))
  {
    if IsComplete(d.form) {
      AppendActive(d.properties, FromForm(d.form, now));
    }
  }

  /** Appending an active property to an all-active list keeps it all active. */
  lemma AppendActive(ps: seq<Property>, p: Property)
    requires forall i :: 0 <= i < |ps| ==> ps[i].status == Active
    requires p.status == Active
    ensures forall i :: 0 <= i < |ps + [p]| ==> (ps + [p])[i].status == Active
  {
    var qs := ps + [p];
    forall i | 0 <= i < |qs|
      ensures qs[i].status == Active
    {
      if i < |ps| {
        assert qs[i] == ps[i];
      }
    }
  }

  lemma DeleteKeepsStatuses(d: Dashboard, id: int)
    requires StatusesConsistent(d)
    ensures StatusesConsistent(DeleteProperty(d, id))
  {
    SublistStatuses(WithoutId(d.properties, id), d.properties, Active);
  }

  lemma ApproveKeepsStatuses(d: Dashboard, id: int)
    requires StatusesConsistent(d)
    ensures StatusesConsistent(Approve(d, id))
  {
    var r := Approve(d, id);
    if HasId(d.pending, id) {
      SublistStatuses(WithoutId(d.pending, id), d.pending, Pending);
      assert r.properties[|d.properties|].status == Active;
      forall i | 0 <= i < |r.properties|
        ensures r.properties[i].status == Active
      {
        if i < |d.properties| {
          assert r.properties[i] == r.properties[..|d.properties|][i];
        }
      }
    }
  }

  lemma RejectKeepsStatuses(d: Dashboard, id: int)
    requires StatusesConsistent(d)
    ensures StatusesConsistent(Reject(d, id))
  {
    SublistStatuses(WithoutId(d.pending, id), d.pending, Pending);
  }

  /** Approving the mock submission publishes it as the third property with
      its own id and date, and empties the pending list. */
  lemma ApproveMockSubmission()
    ensures var r := Approve(InitialDashboard(), 3);
      && |r.properties| == 3
      && r.properties[2].id == 3
      && r.properties[2].status == Active
      && r.properties[2].submittedAt == Some("2024-01-15")
      && r.pending == []
  {
    var d := InitialDashboard();
    assert d.pending[0].id == 3;
  }
}
