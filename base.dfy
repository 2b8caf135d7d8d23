/** Shared vocabulary of the job-board model: optional values, row ids, timestamps
    and the generic facts about id-keyed tables that every module uses. */
module Base {

  /** A nullable column or an optional request field. */
  datatype Option<+T> = None | Some(value: T) {
    function GetOr(default: T): T {
      if Some? then value else default
    }
  }

  /** Primary keys: auto-incremented integers, as Django's default `AutoField`. */
  type UserId = nat
  type CompanyId = nat
  type CategoryId = nat
  type JobId = nat
  type ApplicationId = nat

  /** A point in time in the integer units of the caller's clock; `now` is always a parameter. */
  type Time = int

  /** Django's `slugify`, left uninterpreted: every operation that derives a slug receives it. */
  type Slugify = string -> string

  /** The answer of a view that writes: 404 for an unknown row, 400 for a body that fails
      validation, 403 for a refused role, 500 for an `IntegrityError` raised by a unique
      column at save time (`Conflict`), 500 for an exception the view raises before it
      writes anything (`Crash`), or success with the id of the row written. */
  datatype WriteOutcome = NotFound | Invalid | Forbidden | Conflict | Crash | Done(id: nat)

  /** Every key of the table is below the next id the table will hand out. */
  predicate KeysBelow<T>(m: map<nat, T>, next: nat) {
    forall id :: id in m ==> id < next
  }

  /** The number of rows a `queryset.update` over the selected ids reports: the selected
      ids that are rows of the table. */
  function MatchedCount<T>(m: map<nat, T>, selected: set<nat>): (n: nat)
    ensures n <= |m| && n <= |selected|
    ensures selected <= m.Keys ==> n == |selected|
  {
    var matched := selected * m.Keys;
    SubsetCard(matched, m.Keys);
    SubsetCard(matched, selected);
    assert selected <= m.Keys ==> matched == selected;
    |matched|
  }

  /** Some enumeration of a finite set of ids, each exactly once. */
  ghost function Enumerate(s: set<nat>): (r: seq<nat>)
    ensures |r| == |s|
    ensures forall x :: x in r <==> x in s
    ensures forall i, j :: 0 <= i < j < |r| ==> r[i] != r[j]
    decreases s
  {
    if s == {} then []
    else
      var x :| x in s;
      var rest := Enumerate(s - {x});
      assert forall i :: 0 <= i < |rest| ==> rest[i] != x;
      [x] + rest
  }

  /** The first `n` elements of `s` (all of them when `s` is shorter), as a slice `[:n]`. */
  function Take<T>(s: seq<T>, n: nat): (r: seq<T>)
    ensures |r| == if |s| <= n then |s| else n
    ensures r == s[..|r|]
  {
    if |s| <= n then s else s[..n]
  }

  /** A subset has at most as many elements. */
  lemma SubsetCard<T>(a: set<T>, b: set<T>)
    requires a <= b
    ensures |a| <= |b|
  {
    assert b == a + (b - a);
  }
}
