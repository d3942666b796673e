/** Participants of a shared bill and the list edits the splitter offers:
    adding a person (with the non-negative amount check) and removing one by id. */
module People {

  /** A participant; `amount` is `None` when the person entered no amount. */
  datatype Person = Person(id: int, name: string, amount: Option<real>)

  datatype Option<T> = None | Some(value: T)

  /** Why an add was refused. */
  datatype AddError = NegativeAmount

  datatype AddResult = Added(people: seq<Person>) | Ignored | Rejected(error: AddError)

  /** The amount a person counts for in the balance computation: a missing
      amount counts as zero. */
  function Contribution(p: Person): (r: real)
    ensures p.amount.None? ==> r == 0.0
    ensures p.amount.Some? ==> r == p.amount.value
  {
    match p.amount
    case None => 0.0
    case Some(a) => a
  }

  predicate NonNegative(p: Person) {
    Contribution(p) >= 0.0
  }

  predicate AllNonNegative(people: seq<Person>) {
    forall k :: 0 <= k < |people| ==> NonNegative(people[k])
  }

  /** Adding a person: an empty name does nothing, a negative amount is
      refused, otherwise the person is appended with the id the caller
      supplies (`Date.now()` in the page). */
  function AddPerson(people: seq<Person>, id: int, name: string, amount: Option<real>): (r: AddResult)
    ensures name == [] <==> r.Ignored?
    ensures r.Rejected? <==> name != [] && amount.Some? && amount.value < 0.0
    ensures r.Added? ==> |r.people| == |people| + 1 && r.people[..|people|] == people
    ensures r.Added? ==> r.people[|people|] == Person(id, name, amount)
    ensures r.Added? && AllNonNegative(people) ==> AllNonNegative(r.people)
  {
    if name == [] then Ignored
    else if amount.Some? && amount.value < 0.0 then Rejected(NegativeAmount)
    else Added(people + [Person(id, name, amount)])
  }

  /** The people whose id differs from `id`, in their original order. */
  function RemovePerson(people: seq<Person>, id: int): (r: seq<Person>)
    ensures |r| <= |people|
    ensures forall k :: 0 <= k < |r| ==> r[k].id != id
    ensures forall p :: p in r <==> p in people && p.id != id
    ensures forall p :: multiset(r)[p] == if p.id != id then multiset(people)[p] else 0
  {
    if people == [] then []
    else
      var rest := RemovePerson(people[1..], id);
      assert people == [people[0]] + people[1..];
      assert multiset(people) == multiset{people[0]} + multiset(people[1..]);
      if people[0].id != id then
        assert multiset([people[0]] + rest) == multiset{people[0]} + multiset(rest);
        [people[0]] + rest
      else rest
  }

  /** Removal works piecewise, so it keeps the relative order of the people
      it keeps: splitting the list anywhere and filtering the two parts gives
      the same list as filtering the whole. */
  lemma {:induction false} RemovePersonAppend(front: seq<Person>, back: seq<Person>, id: int)
    ensures RemovePerson(front + back, id) == RemovePerson(front, id) + RemovePerson(back, id)
  {
    if front == [] {
      assert front + back == back;
    } else {
      assert (front + back)[1..] == front[1..] + back;
      RemovePersonAppend(front[1..], back, id);
    }
  }

  /** Removing the same id twice is the same as removing it once. */
  lemma {:induction false} RemovePersonIdempotent(people: seq<Person>, id: int)
    ensures RemovePerson(RemovePerson(people, id), id) == RemovePerson(people, id)
  {
    if people != [] {
      RemovePersonIdempotent(people[1..], id);
    }
  }

  /** Removing an id nobody has leaves the list unchanged. */
  lemma {:induction false} RemoveAbsentId(people: seq<Person>, id: int)
    requires forall k :: 0 <= k < |people| ==> people[k].id != id
    ensures RemovePerson(people, id) == people
  {
    if people != [] {
      RemoveAbsentId(people[1..], id);
      assert people == [people[0]] + people[1..];
    }
  }

  /** Removal keeps every remaining amount non-negative. */
  lemma RemovePreservesNonNegative(people: seq<Person>, id: int)
    requires AllNonNegative(people)
    ensures AllNonNegative(RemovePerson(people, id))
  {
    var r := RemovePerson(people, id);
    forall k | 0 <= k < |r| ensures NonNegative(r[k]) {
      assert r[k] in r;
      var t :| 0 <= t < |people| && people[t] == r[k];
    }
  }
}
