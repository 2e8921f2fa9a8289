/** Attaching a script runs the file's top level before the path is recorded, so attachments made
    there nest compilations on the native stack. No budget covers the nesting: it ends if and only
    if the chains of files that attach one another from their top levels are bounded. */
module AttachNesting {
  import opened Wrappers
  import opened ScriptDispatch

  /** A path to be attached to an entity. */
  type Node = (Entity, Path)

  /** What a file's top level attaches, in order, and whether it then compiles without an error. */
  datatype TopLevel = TopLevel(attaches: seq<Node>, ok: bool)

  /** The readable files. */
  type Files = map<Path, TopLevel>

  /** attach_script with room for `levels` nested compilations: the pairs recorded afterwards, or
      None when the nesting needs more. */
  function AttachIn(files: Files, listed: set<Node>, x: Node, levels: nat): Option<set<Node>>
    decreases levels, 1, 0
  {
    if x in listed || x.1 !in files then Some(listed)
    else if levels == 0 then None
    else
      match AttachEach(files, listed, files[x.1].attaches, levels - 1)
      case None => None
      case Some(after) => Some(if files[x.1].ok then after + {x} else after)
  }

  function AttachEach(files: Files, listed: set<Node>, xs: seq<Node>, levels: nat): Option<set<Node>>
    decreases levels, 2, |xs|
  {
    if xs == [] then Some(listed)
    else
      match AttachIn(files, listed, xs[0], levels)
      case None => None
      case Some(after) => AttachEach(files, after, xs[1..], levels)
  }

  /** A chain of more than `n` attachments, none of them listed yet, each made by the top level of
      the file before. */
  predicate Chain(files: Files, listed: set<Node>, x: Node, n: nat)
    decreases n
  {
    && x !in listed && x.1 in files
    && (n == 0 || exists i :: 0 <= i < |files[x.1].attaches| && Chain(files, listed, files[x.1].attaches[i], n - 1))
  }

  /** There are chains of every length. */
  ghost predicate Endless(files: Files, listed: set<Node>, x: Node) {
    forall n: nat :: Chain(files, listed, x, n)
  }

  // ----- bounded chains are enough -----

  lemma {:induction false} ChainShrinks(files: Files, listed: set<Node>, more: set<Node>, x: Node, n: nat, m: nat)
    requires listed <= more && m <= n && Chain(files, more, x, n)
    ensures Chain(files, listed, x, m)
    decreases m
  {
    if m > 0 {
      var i :| 0 <= i < |files[x.1].attaches| && Chain(files, more, files[x.1].attaches[i], n - 1);
      ChainShrinks(files, listed, more, files[x.1].attaches[i], n - 1, m - 1);
    }
  }

  /** Without a chain of more than `n`, `n` nested compilations are enough. */
  lemma {:induction false} BoundedFinishes(files: Files, listed: set<Node>, x: Node, n: nat)
    requires !Chain(files, listed, x, n)
    ensures var r := AttachIn(files, listed, x, n); r.Some? && listed <= r.value
    decreases n, 1, 0
  {
    if x !in listed && x.1 in files {
      BoundedEach(files, listed, listed, files[x.1].attaches, n - 1);
    }
  }

  lemma {:induction false} BoundedEach(files: Files, listed: set<Node>, now: set<Node>, xs: seq<Node>, n: nat)
    requires listed <= now && forall i :: 0 <= i < |xs| ==> !Chain(files, listed, xs[i], n)
    ensures var r := AttachEach(files, now, xs, n); r.Some? && now <= r.value
    decreases n, 2, |xs|
  {
    if xs != [] {
      if Chain(files, now, xs[0], n) { ChainShrinks(files, listed, now, xs[0], n, n); }
      BoundedFinishes(files, now, xs[0], n);
      BoundedEach(files, listed, AttachIn(files, now, xs[0], n).value, xs[1..], n);
    }
  }

  // ----- endless chains never finish -----

  /** Finitely many attachments, each with a bound, have a common bound. */
  lemma {:induction false} CommonBound(files: Files, listed: set<Node>, xs: seq<Node>) returns (n: nat)
    requires forall i :: 0 <= i < |xs| ==> !Endless(files, listed, xs[i])
    ensures forall i :: 0 <= i < |xs| ==> !Chain(files, listed, xs[i], n)
    decreases |xs|
  {
    if xs == [] { return 0; }
    var m := CommonBound(files, listed, xs[1..]);
    var k: nat :| !Chain(files, listed, xs[0], k);
    n := m + k;
    forall i | 0 <= i < |xs| ensures !Chain(files, listed, xs[i], n) {
      assert i > 0 ==> xs[i] == xs[1..][i - 1];
      if Chain(files, listed, xs[i], n) { ChainShrinks(files, listed, listed, xs[i], n, if i == 0 then k else m); }
    }
  }

  /** An endless chain goes on endlessly through one of the top level's attachments. */
  lemma EndlessNext(files: Files, listed: set<Node>, x: Node) returns (i: nat)
    requires Endless(files, listed, x)
    ensures x !in listed && x.1 in files && i < |files[x.1].attaches| && Endless(files, listed, files[x.1].attaches[i])
  {
    assert Chain(files, listed, x, 0);
    var xs := files[x.1].attaches;
    if forall j :: 0 <= j < |xs| ==> !Endless(files, listed, xs[j]) {
      var n := CommonBound(files, listed, xs);
      assert Chain(files, listed, x, n + 1);
      assert false;
    }
    i :| 0 <= i < |xs| && Endless(files, listed, xs[i]);
  }

  /** Recording attachments that do finish leaves endless chains endless. */
  ghost predicate LeavesEndless(files: Files, listed: set<Node>, after: set<Node>) {
    listed <= after && forall y :: y in after && Endless(files, listed, y) ==> y in listed
  }

  lemma {:induction false} StaysEndless(files: Files, listed: set<Node>, after: set<Node>, x: Node, n: nat)
    requires LeavesEndless(files, listed, after) && Endless(files, listed, x)
    ensures Chain(files, after, x, n)
    decreases n
  {
    var i := EndlessNext(files, listed, x);
    if n > 0 { StaysEndless(files, listed, after, files[x.1].attaches[i], n - 1); }
  }

  lemma {:induction false} EndlessFails(files: Files, listed: set<Node>, x: Node, levels: nat)
    ensures var r := AttachIn(files, listed, x, levels);
            && (Endless(files, listed, x) ==> r.None?)
            && (r.Some? ==> LeavesEndless(files, listed, r.value))
    decreases levels, 1, 0
  {
    if Endless(files, listed, x) { assert Chain(files, listed, x, 0); }
    if x !in listed && x.1 in files && levels > 0 {
      EndlessEach(files, listed, listed, files[x.1].attaches, levels - 1);
      if Endless(files, listed, x) { var i := EndlessNext(files, listed, x); }
    }
  }

  lemma {:induction false} EndlessEach(files: Files, listed: set<Node>, now: set<Node>, xs: seq<Node>, levels: nat)
    requires LeavesEndless(files, listed, now)
    ensures var r := AttachEach(files, now, xs, levels);
            && ((exists i :: 0 <= i < |xs| && Endless(files, listed, xs[i])) ==> r.None?)
            && (r.Some? ==> LeavesEndless(files, listed, r.value))
    decreases levels, 2, |xs|
  {
    forall y | Endless(files, listed, y) ensures Endless(files, now, y) {
      forall n: nat ensures Chain(files, now, y, n) { StaysEndless(files, listed, now, y, n); }
    }
    if xs != [] {
      EndlessFails(files, now, xs[0], levels);
      var r := AttachIn(files, now, xs[0], levels);
      if r.Some? { EndlessEach(files, listed, r.value, xs[1..], levels); }
    }
  }

  // ----- a bound that can be computed -----

  /** Everything an attachment of `x` can lead to. */
  function Reach(files: Files, x: Node): set<Node> {
    {x} + set p, i | p in files && 0 <= i < |files[p].attaches| :: files[p].attaches[i]
  }

  function ChainSet(files: Files, listed: set<Node>, x: Node, n: nat): set<Node> {
    set y | y in Reach(files, x) && Chain(files, listed, y, n)
  }

  /** Once the chains of one length are no longer than those of the next, they are endless. */
  lemma {:induction false} Settled(files: Files, listed: set<Node>, x: Node, n: nat, y: Node, m: nat)
    requires ChainSet(files, listed, x, n) == ChainSet(files, listed, x, n + 1) && y in ChainSet(files, listed, x, n)
    ensures Chain(files, listed, y, m)
    decreases m
  {
    if m <= n {
      ChainShrinks(files, listed, listed, y, n, m);
    } else {
      assert Chain(files, listed, y, n + 1);
      var i :| 0 <= i < |files[y.1].attaches| && Chain(files, listed, files[y.1].attaches[i], n);
      Settled(files, listed, x, n, files[y.1].attaches[i], m - 1);
    }
  }

  lemma {:induction false} ChainSetShrinks(files: Files, listed: set<Node>, x: Node, n: nat)
    requires x in ChainSet(files, listed, x, n) && !Endless(files, listed, x)
    ensures |ChainSet(files, listed, x, n)| + n <= |Reach(files, x)|
    decreases n
  {
    var now := ChainSet(files, listed, x, n);
    if n == 0 {
      SubsetSize(now, Reach(files, x));
    } else {
      var before := ChainSet(files, listed, x, n - 1);
      forall y | y in now ensures y in before { ChainShrinks(files, listed, listed, y, n, n - 1); }
      ChainSetShrinks(files, listed, x, n - 1);
      if now == before {
        forall m: nat ensures Chain(files, listed, x, m) { Settled(files, listed, x, n - 1, x, m); }
      }
      ProperSize(now, before);
    }
  }

  lemma ProperSize(a: set<Node>, b: set<Node>)
    requires a < b
    ensures |a| < |b|
  {
    var y :| y in b && y !in a;
    SubsetSize(a, b - {y});
  }

  /** Attaching finishes, with some depth of native recursion, if and only if no chain of
      attachments is longer than the attachments there are: a file that attaches itself, or files
      that attach each other, to entities that do not list them yet, never let it finish. */
  lemma AttachingFinishes(files: Files, listed: set<Node>, x: Node)
    ensures (exists levels: nat :: AttachIn(files, listed, x, levels).Some?)
            <==> !Chain(files, listed, x, |Reach(files, x)|)
  {
    var n := |Reach(files, x)|;
    if Chain(files, listed, x, n) {
      if !Endless(files, listed, x) {
        assert x in ChainSet(files, listed, x, n);
        ChainSetShrinks(files, listed, x, n);
        assert false;
      }
      forall levels: nat ensures AttachIn(files, listed, x, levels).None? { EndlessFails(files, listed, x, levels); }
    } else {
      BoundedFinishes(files, listed, x, n);
    }
  }

  /** The shortest such chain: a file whose top level attaches itself. */
  lemma {:induction false} SelfAttachingIsEndless(files: Files, listed: set<Node>, x: Node, n: nat)
    requires x !in listed && x.1 in files && x in files[x.1].attaches
    ensures Chain(files, listed, x, n)
    decreases n
  {
    if n > 0 { SelfAttachingIsEndless(files, listed, x, n - 1); }
  }
}
