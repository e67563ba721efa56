/** Python's `None`/value and raised-exception/value, as datatypes. */
module Wrappers {

  datatype Option<+T> = None | Some(value: T) {
    /** `x or default` for an optional value. */
    function GetOr(default: T): T {
      match this
      case Some(v) => v
      case None => default
    }
  }

  datatype Result<+R, +E> = Success(value: R) | Failure(error: E)

  /** The values of the `Some` entries of `xs`, in order: what a loop that appends only on
      some iterations builds. */
  function Somes<T>(xs: seq<Option<T>>): (r: seq<T>)
    ensures |r| <= |xs|
  {
    if xs == [] then []
    else
      var last := xs[|xs| - 1];
      Somes(xs[..|xs| - 1]) + (if last.Some? then [last.value] else [])
  }

  lemma {:induction false} SomesMembers<T>(xs: seq<Option<T>>)
    ensures forall x :: x in Somes(xs) <==> Some(x) in xs
  {
    if xs != [] {
      var init := xs[..|xs| - 1];
      SomesMembers(init);
      assert xs == init + [xs[|xs| - 1]];
    }
  }

  /** The value of a `Some` entry is kept. */
  lemma SomesHas<T>(xs: seq<Option<T>>, k: nat)
    requires k < |xs| && xs[k].Some?
    ensures xs[k].value in Somes(xs)
  {
    SomesMembers(xs);
  }

  lemma {:induction false} SomesAppend<T>(a: seq<Option<T>>, b: seq<Option<T>>)
    ensures Somes(a + b) == Somes(a) + Somes(b)
  {
    if b == [] {
      assert a + b == a;
    } else {
      assert (a + b)[..|a + b| - 1] == a + b[..|b| - 1];
      SomesAppend(a, b[..|b| - 1]);
    }
  }

  /** One more entry of a prefix. */
  lemma SomesSnoc<T>(xs: seq<Option<T>>, j: nat)
    requires j < |xs|
    ensures xs[j].None? ==> Somes(xs[..j + 1]) == Somes(xs[..j])
    ensures xs[j].Some? ==> Somes(xs[..j + 1]) == Somes(xs[..j]) + [xs[j].value]
  {
    assert xs[..j + 1][..j] == xs[..j];
    assert Somes(xs[..j]) + [] == Somes(xs[..j]);
  }

  /** Where the values of `Somes(xs)` come from: one position per value, in increasing order,
      covering every `Some` entry. */
  function SomeIndices<T>(xs: seq<Option<T>>): (ks: seq<nat>)
    ensures |ks| == |Somes(xs)|
    ensures forall i, j :: 0 <= i < j < |ks| ==> ks[i] < ks[j]
    ensures forall i :: 0 <= i < |ks| ==> ks[i] < |xs| && xs[ks[i]] == Some(Somes(xs)[i])
    ensures forall k :: 0 <= k < |xs| && xs[k].Some? ==> k in ks
  {
    if xs == [] then []
    else
      var init := xs[..|xs| - 1];
      var ks := SomeIndices(init);
      assert forall i :: 0 <= i < |init| ==> init[i] == xs[i];
      ks + if xs[|xs| - 1].Some? then [|xs| - 1] else []
  }

  /** The first `Some` entry of `xs`: what a loop that stops at its first hit finds. */
  function FirstSome<T>(xs: seq<Option<T>>): Option<T> {
    if xs == [] then None
    else if xs[0].Some? then xs[0]
    else FirstSome(xs[1..])
  }

  /** Both directions of the first-hit rule: nothing is found iff every entry is `None`;
      otherwise what is found is an entry with only `None` before it. */
  lemma {:induction false} FirstSomeSpec<T>(xs: seq<Option<T>>)
    ensures FirstSome(xs).None? <==> forall i :: 0 <= i < |xs| ==> xs[i].None?
    ensures FirstSome(xs).Some? ==>
      exists i :: 0 <= i < |xs| && xs[i] == FirstSome(xs) && forall j :: 0 <= j < i ==> xs[j].None?
  {
    if xs != [] && xs[0].None? {
      FirstSomeSpec(xs[1..]);
      assert forall i :: 1 <= i < |xs| ==> xs[i] == xs[1..][i - 1];
      if FirstSome(xs).Some? {
        var i :| 0 <= i < |xs[1..]| && xs[1..][i] == FirstSome(xs) && forall j :: 0 <= j < i ==> xs[1..][j].None?;
        assert xs[i + 1] == FirstSome(xs);
      }
    }
  }

  /** An attempt that may raise: an error, a hit, or a miss. */
  type Outcome<T, E> = Result<Option<T>, E>

  predicate Miss<T, E>(x: Outcome<T, E>) {
    x.Success? && x.value.None?
  }

  /** What a loop that stops at its first hit finds when every attempt may raise: the first
      entry that is a hit or an error (an error propagates out of the loop). */
  function FirstHit<T, E>(xs: seq<Outcome<T, E>>): Outcome<T, E> {
    if xs == [] then Success(None)
    else if !Miss(xs[0]) then xs[0]
    else FirstHit(xs[1..])
  }

  /** Both directions of the first-hit rule with errors: a miss iff every entry is a miss;
      otherwise the outcome is an entry with only misses before it. */
  lemma {:induction false} FirstHitSpec<T, E>(xs: seq<Outcome<T, E>>)
    ensures Miss(FirstHit(xs)) <==> forall i :: 0 <= i < |xs| ==> Miss(xs[i])
    ensures !Miss(FirstHit(xs)) ==>
      exists i :: 0 <= i < |xs| && xs[i] == FirstHit(xs) && forall j :: 0 <= j < i ==> Miss(xs[j])
  {
    if xs != [] && Miss(xs[0]) {
      FirstHitSpec(xs[1..]);
      assert forall i :: 1 <= i < |xs| ==> xs[i] == xs[1..][i - 1];
      if !Miss(FirstHit(xs)) {
        var i :| 0 <= i < |xs[1..]| && xs[1..][i] == FirstHit(xs) && forall j :: 0 <= j < i ==> Miss(xs[1..][j]);
        assert xs[i + 1] == FirstHit(xs);
      }
    }
  }

  /** What a loop that appends every hit and lets the first error propagate builds: the first
      error, or else the hits in order. */
  function Gather<T, E>(xs: seq<Outcome<T, E>>): (r: Result<seq<T>, E>)
    ensures r.Success? ==> |r.value| <= |xs|
  {
    if xs == [] then Success([])
    else
      var init := Gather(xs[..|xs| - 1]);
      var last := xs[|xs| - 1];
      if init.Failure? then init
      else if last.Failure? then Failure(last.error)
      else Success(init.value + if last.value.Some? then [last.value.value] else [])
  }

  /** Gathering succeeds iff no entry is an error; then it holds exactly the hits. */
  lemma {:induction false} GatherSpec<T, E>(xs: seq<Outcome<T, E>>)
    ensures Gather(xs).Success? <==> forall i :: 0 <= i < |xs| ==> xs[i].Success?
    ensures Gather(xs).Success? ==>
      forall x :: x in Gather(xs).value <==> exists i :: 0 <= i < |xs| && xs[i] == Success(Some(x))
  {
    if xs != [] {
      var init := xs[..|xs| - 1];
      GatherSpec(init);
      assert forall i :: 0 <= i < |init| ==> init[i] == xs[i];
    }
  }

  /** Where the hits of a successful `Gather` come from: one position per hit, in increasing
      order, covering every entry that is not a miss. */
  function HitIndices<T, E>(xs: seq<Outcome<T, E>>): (ks: seq<nat>)
    requires Gather(xs).Success?
    ensures |ks| == |Gather(xs).value|
    ensures forall i, j :: 0 <= i < j < |ks| ==> ks[i] < ks[j]
    ensures forall i :: 0 <= i < |ks| ==> ks[i] < |xs| && xs[ks[i]] == Success(Some(Gather(xs).value[i]))
    ensures forall k :: 0 <= k < |xs| && !Miss(xs[k]) ==> k in ks
  {
    if xs == [] then []
    else
      var init := xs[..|xs| - 1];
      var ks := HitIndices(init);
      assert forall i :: 0 <= i < |init| ==> init[i] == xs[i];
      ks + if xs[|xs| - 1].value.Some? then [|xs| - 1] else []
  }

  /** An error right after a prefix that gathered without error is the error of the whole. */
  lemma {:induction false} GatherFailsAt<T, E>(xs: seq<Outcome<T, E>>, k: nat)
    requires k < |xs| && Gather(xs[..k]).Success? && xs[k].Failure?
    ensures Gather(xs) == Failure(xs[k].error)
  {
    var init := xs[..|xs| - 1];
    if k < |init| {
      assert init[..k] == xs[..k];
      GatherFailsAt(init, k);
    } else {
      assert init == xs[..k];
    }
  }

  /** Gathering one more entry of a prefix. */
  lemma GatherStep<T, E>(xs: seq<Outcome<T, E>>, k: nat)
    requires k < |xs| && Gather(xs[..k]).Success? && xs[k].Success?
    ensures xs[k].value.None? ==> Gather(xs[..k + 1]) == Gather(xs[..k])
    ensures xs[k].value.Some? ==> Gather(xs[..k + 1]) == Success(Gather(xs[..k]).value + [xs[k].value.value])
  {
    assert xs[..k + 1][..k] == xs[..k];
    assert Gather(xs[..k]).value + [] == Gather(xs[..k]).value;
  }
}
