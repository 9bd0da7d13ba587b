/** Looking a path up in the route trie (jsland/src/router.ts:90-129): exact segments first, then the
    wildcard, then the directory handler, collecting middleware on the way down. */
module RouteLookup {
  import opened Paths
  import opened Sequences
  import opened Tuple
  import opened RouteTrie

  const WILDCARD := "*"
  const DIRECTORY := ""

  /** A step of the walk: which child it takes, or that there is none. */
  function Step<H, M>(n: Node<H, M>, seg: string): Option<string> {
    if seg in n.children then Some(seg)
    else if WILDCARD in n.children then Some(WILDCARD)
    else None
  }

  /** Where a lookup ends, and the nodes whose middleware it collects, as paths in the trie. */
  datatype Found = Found(end: Segs, collected: seq<Segs>)

  datatype Lookup = Threw | Missing | Hit(found: Found)

  predicate HasMiddleware<H, M>(n: Node<H, M>, p: Segs) {
    At(n, p).middlewares != []
  }

  function Below(key: string, ps: seq<Segs>): (r: seq<Segs>)
    ensures |r| == |ps| && forall i :: 0 <= i < |r| ==> r[i] == [key] + ps[i]
  {
    seq(|ps|, i requires 0 <= i < |ps| => [key] + ps[i])
  }

  function Directory<H, M>(n: Node<H, M>): seq<Segs> {
    if HasMiddleware(n, [DIRECTORY]) then [[DIRECTORY]] else []
  }

  function Own<H, M>(n: Node<H, M>, key: string): seq<Segs> {
    if HasMiddleware(n, [key]) then [[key]] else []
  }

  function Walk<H, M>(n: Node<H, M>, segs: Segs): Lookup
    decreases |segs|
  {
    if segs == [] then Hit(Found([], []))
    else if BadHead(segs) then Threw
    else
      match Step(n, segs[0])
      case None => if DIRECTORY in n.children then Hit(Found([DIRECTORY], Directory(n))) else Missing
      case Some(key) =>
        (match Walk(n.children[key], segs[1..])
         case Hit(f) => Hit(Found([key] + f.end, Directory(n) + Own(n, key) + Below(key, f.collected)))
         case other => other)
  }

  lemma NodeBelow<H, M>(n: Node<H, M>, key: string, p: Segs)
    ensures NodeAt(n, [key] + p) == if key in n.children then NodeAt(n.children[key], p) else None
  {
    assert ([key] + p)[1..] == p;
  }

  /** Every node collected has middleware, and the walk ends at a node. */
  lemma {:induction false} WalkCollects<H, M>(n: Node<H, M>, segs: Segs)
    requires Walk(n, segs).Hit?
    ensures NodeAt(n, Walk(n, segs).found.end).Some?
    ensures forall p <- Walk(n, segs).found.collected :: p != [] && HasMiddleware(n, p)
    decreases |segs|
  {
    if segs != [] {
      var step := Step(n, segs[0]);
      if step.None? {
        NodeBelow(n, DIRECTORY, []);
      } else {
        var key := step.value;
        var f := Walk(n.children[key], segs[1..]).found;
        WalkCollects(n.children[key], segs[1..]);
        NodeBelow(n, key, f.end);
        BelowHave(n, key, f.collected);
      }
    }
  }

  lemma BelowHave<H, M>(n: Node<H, M>, key: string, ps: seq<Segs>)
    requires key in n.children && forall p <- ps :: HasMiddleware(n.children[key], p)
    ensures forall p <- Below(key, ps) :: p != [] && HasMiddleware(n, p)
  {
    forall i | 0 <= i < |ps| ensures HasMiddleware(n, Below(key, ps)[i]) {
      NodeBelow(n, key, ps[i]);
      assert ps[i] in ps;
    }
  }

  /** A path with a node of its own is found there, whatever wildcards and directories surround it. */
  lemma {:induction false} ExactWins<H, M>(n: Node<H, M>, segs: Segs)
    requires WellFormed(segs) && NodeAt(n, segs).Some?
    ensures Walk(n, segs).Hit? && Walk(n, segs).found.end == segs
    decreases |segs|
  {
    if segs != [] {
      WellFormedTail(segs);
      ExactWins(n.children[segs[0]], segs[1..]);
      assert segs == [segs[0]] + segs[1..];
    }
  }

  /** A path no registration went near falls through to the wildcard or the directory. */
  lemma FallsThrough<H, M>(n: Node<H, M>, seg: string)
    requires NodeAt(n, [seg]).None?
    ensures Walk(n, [seg]) ==
      if WILDCARD in n.children then Hit(Found([WILDCARD], Directory(n) + Own(n, WILDCARD)))
      else if DIRECTORY in n.children then Hit(Found([DIRECTORY], Directory(n)))
      else Missing
  {
    if WILDCARD in n.children {
      assert [seg][1..] == [];
      assert Below(WILDCARD, []) == [];
      assert Directory(n) + Own(n, WILDCARD) + [] == Directory(n) + Own(n, WILDCARD);
    }
  }

  /** Nodes nearer the root come first. */
  predicate GoesDown(ps: seq<Segs>) {
    forall i, j :: 0 <= i < j < |ps| ==> |ps[i]| <= |ps[j]|
  }

  /** Each node lies on the way to the end, or is the directory beside it. */
  predicate Along(ps: seq<Segs>, end: Segs) {
    forall i :: 0 <= i < |ps| ==> ps[i] != [] && ps[i][..|ps[i]| - 1] <= end
  }

  /** The nodes collected run from the root towards the end of the walk. */
  lemma {:induction false} CollectedGoDown<H, M>(n: Node<H, M>, segs: Segs)
    requires Walk(n, segs).Hit?
    ensures var f := Walk(n, segs).found; GoesDown(f.collected) && Along(f.collected, f.end)
    decreases |segs|
  {
    if segs != [] && Step(n, segs[0]).Some? {
      var key := Step(n, segs[0]).value;
      var f := Walk(n.children[key], segs[1..]).found;
      CollectedGoDown(n.children[key], segs[1..]);
      LevelGoesDown(Directory(n) + Own(n, key), key, f);
    }
  }

  lemma LevelGoesDown(top: seq<Segs>, key: string, f: Found)
    requires GoesDown(f.collected) && Along(f.collected, f.end) && forall i :: 0 <= i < |top| ==> |top[i]| == 1
    ensures GoesDown(top + Below(key, f.collected)) && Along(top + Below(key, f.collected), [key] + f.end)
  {
    var all := top + Below(key, f.collected);
    forall i | 0 <= i < |all| ensures all[i] != [] && all[i][..|all[i]| - 1] <= [key] + f.end {
      if i >= |top| {
        var p := f.collected[i - |top|];
        assert all[i] == [key] + p && all[i][..|all[i]| - 1] == [key] + p[..|p| - 1];
      }
    }
  }

  // Once each, unless the path ends in a slash.

  predicate NoTrailingSlash(segs: Segs) {
    segs != [] ==> segs[|segs| - 1] != ""
  }

  /** The walk takes the directory of its last level as the last segment, and collects it twice. */
  predicate Doubled<H, M>(n: Node<H, M>, segs: Segs)
    decreases |segs|
  {
    if segs == [] || BadHead(segs) || Step(n, segs[0]).None? then false
    else if |segs| == 1 then segs[0] == DIRECTORY && HasMiddleware(n, [DIRECTORY])
    else Doubled(n.children[Step(n, segs[0]).value], segs[1..])
  }

  lemma {:induction false} DoubledNeedsSlash<H, M>(n: Node<H, M>, segs: Segs)
    requires Doubled(n, segs)
    ensures !NoTrailingSlash(segs)
    decreases |segs|
  {
    if |segs| > 1 {
      DoubledNeedsSlash(n.children[Step(n, segs[0]).value], segs[1..]);
    }
  }

  lemma BelowDistinct(key: string, ps: seq<Segs>)
    ensures Distinct(Below(key, ps)) <==> Distinct(ps)
  {
    var b := Below(key, ps);
    forall i, j | 0 <= i < j < |ps| ensures b[i] == b[j] <==> ps[i] == ps[j] {
      assert b[i][1..] == ps[i] && b[j][1..] == ps[j];
    }
  }

  /** Each collected node counts once, exactly unless a directory with middleware is asked for by a
      trailing slash. */
  lemma {:induction false} CollectedOnce<H, M>(n: Node<H, M>, segs: Segs)
    requires Walk(n, segs).Hit?
    ensures Distinct(Walk(n, segs).found.collected) <==> !Doubled(n, segs)
    decreases |segs|
  {
    if segs != [] && Step(n, segs[0]).Some? {
      var key := Step(n, segs[0]).value;
      var f := Walk(n.children[key], segs[1..]).found;
      CollectedOnce(n.children[key], segs[1..]);
      WalkCollects(n.children[key], segs[1..]);
      BelowDistinct(key, f.collected);
      LevelsDistinct(n, key, f.collected);
      if |segs| == 1 {
        assert f.collected == [];
        assert key == DIRECTORY <==> segs[0] == DIRECTORY && key == DIRECTORY;
      }
    }
  }

  lemma DistinctConcat(top: seq<Segs>, deep: seq<Segs>)
    requires (forall p <- top :: |p| == 1) && (forall p <- deep :: |p| > 1)
    ensures Distinct(top + deep) <==> Distinct(top) && Distinct(deep)
  {
    var all := top + deep;
    if Distinct(all) {
      forall i, j | 0 <= i < j < |top| ensures top[i] != top[j] {
        assert all[i] != all[j];
      }
      forall i, j | 0 <= i < j < |deep| ensures deep[i] != deep[j] {
        assert all[|top| + i] != all[|top| + j];
      }
    }
    if Distinct(top) && Distinct(deep) {
      forall i, j | 0 <= i < j < |all| ensures all[i] != all[j] {
        if i < |top| <= j {
          assert all[i] in top && all[j] in deep;
        } else if |top| <= i {
          assert all[i] == deep[i - |top|] && all[j] == deep[j - |top|];
        }
      }
    }
  }

  lemma LevelsDistinct<H, M>(n: Node<H, M>, key: string, deeper: seq<Segs>)
    requires forall p <- deeper :: p != []
    ensures Distinct(Directory(n) + Own(n, key) + Below(key, deeper))
       <==> Distinct(deeper) && !(key == DIRECTORY && HasMiddleware(n, [DIRECTORY]))
  {
    var top := Directory(n) + Own(n, key);
    var b := Below(key, deeper);
    BelowDistinct(key, deeper);
    forall i | 0 <= i < |b| ensures |b[i]| > 1 {
      assert deeper[i] in deeper;
    }
    DistinctConcat(top, b);
    TopDistinct(n, key);
  }

  lemma TopDistinct<H, M>(n: Node<H, M>, key: string)
    ensures Distinct(Directory(n) + Own(n, key)) <==> !(key == DIRECTORY && HasMiddleware(n, [DIRECTORY]))
  {
    var top := Directory(n) + Own(n, key);
    if key == DIRECTORY && HasMiddleware(n, [DIRECTORY]) {
      assert top[0] == top[1];
    } else if key != DIRECTORY {
      assert [key][0] != [DIRECTORY][0];
    }
  }
}
