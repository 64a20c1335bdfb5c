/**
 Word-level edit distance: the recursive distance that the table of
 `word_error_rate` computes, and the independent notion it is measured
 against, edit scripts.

 A script is a list of edits applied from the end of the word list backwards,
 the order in which the table is indexed. The table takes the diagonal on a
 match without comparing it with its neighbours, so that it still returns the
 cost of the cheapest script is a theorem (`DistIsCheapestScript`).
 */
module EditDistance {
  import opened Options

  datatype Edit<T> = Keep | Substitute(word: T) | Delete | Insert(word: T)
  datatype Script<T> = Start | Then(before: Script<T>, last: Edit<T>)

  function Cost<T>(s: Script<T>): nat {
    match s
    case Start => 0
    case Then(before, e) => Cost(before) + if e.Keep? then 0 else 1
  }

  /** The word list a script makes of `a`; None when it does not fit `a`. */
  function Apply<T>(s: Script<T>, a: seq<T>): Option<seq<T>> {
    match s
    case Start => if a == [] then Some([]) else None
    case Then(before, e) =>
      match e
      case Insert(w) => Append(Apply(before, a), [w])
      case Keep => if a == [] then None else Append(Apply(before, Init(a)), [Last(a)])
      case Substitute(w) => if a == [] then None else Append(Apply(before, Init(a)), [w])
      case Delete => if a == [] then None else Apply(before, Init(a))
  }

  function Append<T>(r: Option<seq<T>>, w: seq<T>): Option<seq<T>> {
    if r.None? then None else Some(r.value + w)
  }

  function Init<T>(a: seq<T>): seq<T>
    requires a != []
  {
    a[..|a| - 1]
  }

  function Last<T>(a: seq<T>): T
    requires a != []
  {
    a[|a| - 1]
  }

  function Min3(x: nat, y: nat, z: nat): nat {
    if x <= y && x <= z then x else if y <= z then y else z
  }

  function Max(x: nat, y: nat): nat {
    if x < y then y else x
  }

  /** Cell (|a|, |b|) of the table. */
  function Dist<T(==)>(a: seq<T>, b: seq<T>): nat
    decreases |a| + |b|
  {
    if a == [] then |b|
    else if b == [] then |a|
    else if Last(a) == Last(b) then Dist(Init(a), Init(b))
    else 1 + Min3(Dist(Init(a), b), Dist(a, Init(b)), Dist(Init(a), Init(b)))
  }

  /** Two cells that share an edge differ by at most one. */
  lemma {:induction false} NeighboursDifferByAtMostOne<T>(a: seq<T>, b: seq<T>)
    ensures a != [] ==> Dist(a, b) <= Dist(Init(a), b) + 1 && Dist(Init(a), b) <= Dist(a, b) + 1
    ensures b != [] ==> Dist(a, b) <= Dist(a, Init(b)) + 1 && Dist(a, Init(b)) <= Dist(a, b) + 1
    decreases |a| + |b|
  {
    if a != [] {
      NeighboursDifferByAtMostOne(Init(a), b);
    }
    if b != [] {
      NeighboursDifferByAtMostOne(a, Init(b));
    }
  }

  // ---- The distance is the cost of the cheapest script ----

  /** No script that turns a into b is cheaper than the distance. */
  lemma {:induction false} NoScriptIsCheaper<T>(s: Script<T>, a: seq<T>, b: seq<T>)
    requires Apply(s, a) == Some(b)
    ensures Dist(a, b) <= Cost(s)
  {
    match s
    case Start =>
    case Then(before, Insert(w)) =>
      NoScriptIsCheaper(before, a, Init(b));
      NeighboursDifferByAtMostOne(a, b);
    case Then(before, Delete) =>
      NoScriptIsCheaper(before, Init(a), b);
      NeighboursDifferByAtMostOne(a, b);
    case Then(before, e) =>
      assert b == Init(b) + [Last(b)];
      NoScriptIsCheaper(before, Init(a), Init(b));
      NeighboursDifferByAtMostOne(Init(a), b);
      NeighboursDifferByAtMostOne(a, b);
  }

  /** The script the table's choices spell out. */
  function Cheapest<T(==)>(a: seq<T>, b: seq<T>): (s: Script<T>)
    ensures Apply(s, a) == Some(b) && Cost(s) == Dist(a, b)
    decreases |a| + |b|
  {
    if a == [] && b == [] then Start
    else if a == [] then assert b == Init(b) + [Last(b)]; Then(Cheapest(a, Init(b)), Insert(Last(b)))
    else if b == [] then Then(Cheapest(Init(a), b), Delete)
    else
      assert b == Init(b) + [Last(b)];
      if Last(a) == Last(b) then Then(Cheapest(Init(a), Init(b)), Keep)
      else
        var x, y, z := Dist(Init(a), b), Dist(a, Init(b)), Dist(Init(a), Init(b));
        if x <= y && x <= z then Then(Cheapest(Init(a), b), Delete)
        else if y <= z then Then(Cheapest(a, Init(b)), Insert(Last(b)))
        else Then(Cheapest(Init(a), Init(b)), Substitute(Last(b)))
  }

  lemma DistIsCheapestScript<T>(a: seq<T>, b: seq<T>)
    ensures exists s: Script<T> :: Apply(s, a) == Some(b) && Cost(s) == Dist(a, b)
    ensures forall s: Script<T> :: Apply(s, a) == Some(b) ==> Dist(a, b) <= Cost(s)
  {
    assert Apply(Cheapest(a, b), a) == Some(b);
    forall s: Script<T> | Apply(s, a) == Some(b)
      ensures Dist(a, b) <= Cost(s)
    {
      NoScriptIsCheaper(s, a, b);
    }
  }

  // ---- The distance is a metric ----

  lemma {:induction false} ZeroIffEqual<T>(a: seq<T>, b: seq<T>)
    ensures Dist(a, b) == 0 <==> a == b
    decreases |a| + |b|
  {
    if a != [] && b != [] {
      ZeroIffEqual(Init(a), Init(b));
      assert a == Init(a) + [Last(a)] && b == Init(b) + [Last(b)];
    }
  }

  lemma {:induction false} Symmetric<T>(a: seq<T>, b: seq<T>)
    ensures Dist(a, b) == Dist(b, a)
    decreases |a| + |b|
  {
    if a != [] && b != [] {
      Symmetric(Init(a), b);
      Symmetric(a, Init(b));
      Symmetric(Init(a), Init(b));
    }
  }

  /** Runs `s` and then `t` as one script: the middle word list disappears. */
  function Compose<T>(s: Script<T>, t: Script<T>): Script<T> {
    if t.Then? && t.last.Insert? then Then(Compose(s, t.before), t.last)
    else if s.Then? && s.last.Delete? then Then(Compose(s.before, t), Delete)
    else if s.Start? || t.Start? then Start
    else if t.last.Keep? then Then(Compose(s.before, t.before), s.last)
    else if s.last.Insert? then
      if t.last.Delete? then Compose(s.before, t.before)
      else Then(Compose(s.before, t.before), Insert(t.last.word))
    else Then(Compose(s.before, t.before), t.last)
  }

  lemma {:induction false} ComposeRunsBoth<T>(s: Script<T>, t: Script<T>, a: seq<T>, b: seq<T>, c: seq<T>)
    requires Apply(s, a) == Some(b) && Apply(t, b) == Some(c)
    ensures Apply(Compose(s, t), a) == Some(c)
    ensures Cost(Compose(s, t)) <= Cost(s) + Cost(t)
    decreases s, t
  {
    if t.Then? && t.last.Insert? {
      ComposeRunsBoth(s, t.before, a, b, Init(c));
    } else if s.Then? && s.last.Delete? {
      ComposeRunsBoth(s.before, t, Init(a), b, c);
    } else if s.Then? {
      var c' := if t.last.Delete? then c else Init(c);
      var a' := if s.last.Insert? then a else Init(a);
      ComposeRunsBoth(s.before, t.before, a', Init(b), c');
    }
  }

  lemma Triangle<T>(a: seq<T>, b: seq<T>, c: seq<T>)
    ensures Dist(a, c) <= Dist(a, b) + Dist(b, c)
  {
    var s, t := Cheapest(a, b), Cheapest(b, c);
    ComposeRunsBoth(s, t, a, b, c);
    NoScriptIsCheaper(Compose(s, t), a, c);
  }

  lemma {:induction false} DistBounds<T>(a: seq<T>, b: seq<T>)
    ensures |a| - |b| <= Dist(a, b) && |b| - |a| <= Dist(a, b)
    ensures Dist(a, b) <= Max(|a|, |b|)
    decreases |a| + |b|
  {
    if a != [] && b != [] {
      DistBounds(Init(a), b);
      DistBounds(a, Init(b));
      DistBounds(Init(a), Init(b));
    }
  }
}
