/**
  The experience timeline: seven nodes, each worth some XP; visitors unlock
  nodes one at a time, earning each node's XP once, and the level and the
  progress bar follow the XP earned.
 */
module Timeline {

  datatype NodeKind = Work | Project | Milestone

  /** A timeline node, reduced to the fields the XP logic reads. */
  datatype Node = Node(id: string, title: string, xp: int, kind: NodeKind)

  const Nodes: seq<Node> := [
    Node("att-2025", "Software Engineer Intern", 500, Work),
    Node("lumen-2024", "Software Developer Intern", 400, Work),
    Node("uw-2024", "Cybersecurity Analyst Intern", 350, Work),
    Node("exact-2023", "Cybersecurity Engineering Intern", 400, Work),
    Node("attentioflow-2024", "AttentioFlow AI", 300, Project),
    Node("ufo-2023", "UFO Sightings Analysis", 250, Project),
    Node("milestone-graduation", "UW\U{2013}Madison Graduation", 1000, Milestone)
  ]

  const XPPerLevel: int := 500

  // ---------------------------------------------------------------------------
  // Data
  // ---------------------------------------------------------------------------

  predicate DistinctIds(ns: seq<Node>) {
    forall i, j :: 0 <= i < j < |ns| ==> ns[i].id != ns[j].id
  }

  predicate PositiveXP(ns: seq<Node>) {
    forall i :: 0 <= i < |ns| ==> ns[i].xp > 0
  }

  lemma NodesWellFormed()
    ensures |Nodes| == 7
    ensures DistinctIds(Nodes)
    ensures PositiveXP(Nodes)
  {
  }

  /** `getTotalXP`: the nodes' XP added up, left to right. */
  function SumXP(ns: seq<Node>): (total: int)
    ensures PositiveXP(ns) && ns != [] ==> total > 0
  {
    if ns == [] then 0
    else
      assert PositiveXP(ns) ==> PositiveXP(ns[1..]) by {
        if PositiveXP(ns) {
          forall j | 0 <= j < |ns| - 1 ensures ns[1..][j].xp > 0 { assert ns[1..][j] == ns[j + 1]; }
        }
      }
      ns[0].xp + SumXP(ns[1..])
  }

  function TotalXP(): int {
    SumXP(Nodes)
  }

  lemma TotalXPValue()
    ensures TotalXP() == 3200
  {
  }

  // ---------------------------------------------------------------------------
  // Levels
  // ---------------------------------------------------------------------------

  /** `getLevel`: one level per 500 XP, starting at level 1 (floor division, as JavaScript's `Math.floor`). */
  function Level(xp: int): (level: int)
    ensures (level - 1) * XPPerLevel <= xp < level * XPPerLevel
    ensures xp >= 0 ==> level >= 1
  {
    xp / XPPerLevel + 1
  }

  /** The level is the only one whose XP band holds `xp`. */
  lemma LevelUnique(xp: int, level: int)
    requires (level - 1) * XPPerLevel <= xp < level * XPPerLevel
    ensures Level(xp) == level
  {
  }

  lemma LevelMonotone(a: int, b: int)
    requires a <= b
    ensures Level(a) <= Level(b)
  {
  }

  lemma LevelBoundaries()
    ensures Level(0) == 1 && Level(499) == 1 && Level(500) == 2
    ensures Level(TotalXP()) == 7
  {
    TotalXPValue();
  }

  // ---------------------------------------------------------------------------
  // Unlocking
  // ---------------------------------------------------------------------------

  /** The timeline's state: the unlocked node ids and the XP earned so far. */
  datatype Progress = Progress(unlocked: set<string>, earned: int)

  const Start: Progress := Progress({}, 0)

  /** `handleUnlock`: a node already unlocked earns nothing more. */
  function Unlock(p: Progress, id: string, xp: int): (r: Progress)
    ensures id in p.unlocked ==> r == p
    ensures id !in p.unlocked ==> r.unlocked == p.unlocked + {id} && r.earned == p.earned + xp
  {
    if id in p.unlocked then p else Progress(p.unlocked + {id}, p.earned + xp)
  }

  /** Unlocking the same node again changes nothing. */
  lemma UnlockIdempotent(p: Progress, id: string, xp: int)
    ensures Unlock(Unlock(p, id, xp), id, xp) == Unlock(p, id, xp)
  {
  }

  /** What the node at `i` passes to `handleUnlock` when its card is opened. */
  function UnlockNode(p: Progress, i: nat): Progress
    requires i < |Nodes|
  {
    Unlock(p, Nodes[i].id, Nodes[i].xp)
  }

  /** The XP of the nodes of `ns` whose ids are in `ids`. */
  function EarnedFor(ids: set<string>, ns: seq<Node>): int {
    if ns == [] then 0
    else (if ns[0].id in ids then ns[0].xp else 0) + EarnedFor(ids, ns[1..])
  }

  /** The ids of the nodes. */
  function Ids(ns: seq<Node>): set<string> {
    set i | 0 <= i < |ns| :: ns[i].id
  }

  /** What the earned counter should say: the XP of the unlocked nodes, all of them timeline nodes. */
  predicate Consistent(p: Progress) {
    p.unlocked <= Ids(Nodes) && p.earned == EarnedFor(p.unlocked, Nodes)
  }

  /** Adding an id adds the XP of exactly the node carrying it. */
  lemma {:induction false} EarnedForInsert(ids: set<string>, ns: seq<Node>, i: nat)
    requires DistinctIds(ns) && i < |ns| && ns[i].id !in ids
    ensures EarnedFor(ids + {ns[i].id}, ns) == EarnedFor(ids, ns) + ns[i].xp
  {
    var tail := ns[1..];
    if i == 0 {
      assert forall j :: 0 <= j < |tail| ==> tail[j].id != ns[0].id by {
        forall j | 0 <= j < |tail| ensures tail[j].id != ns[0].id { assert tail[j] == ns[j + 1]; }
      }
      EarnedForAbsent(ids, ns[0].id, tail);
    } else {
      assert DistinctIds(tail) by {
        forall a, b | 0 <= a < b < |tail| ensures tail[a].id != tail[b].id {
          assert tail[a] == ns[a + 1] && tail[b] == ns[b + 1];
        }
      }
      assert tail[i - 1] == ns[i];
      EarnedForInsert(ids, tail, i - 1);
      assert ns[0].id != ns[i].id;
    }
  }

  /** An id no node carries changes nothing. */
  lemma {:induction false} EarnedForAbsent(ids: set<string>, x: string, ns: seq<Node>)
    requires forall j :: 0 <= j < |ns| ==> ns[j].id != x
    ensures EarnedFor(ids + {x}, ns) == EarnedFor(ids, ns)
  {
    if ns != [] {
      assert forall j :: 0 <= j < |ns[1..]| ==> ns[1..][j].id != x by {
        forall j | 0 <= j < |ns[1..]| ensures ns[1..][j].id != x { assert ns[1..][j] == ns[j + 1]; }
      }
      EarnedForAbsent(ids, x, ns[1..]);
    }
  }

  /** The earned XP never passes the total, and reaches it exactly when every node is unlocked. */
  lemma {:induction false} EarnedForBounded(ids: set<string>, ns: seq<Node>)
    requires PositiveXP(ns)
    ensures 0 <= EarnedFor(ids, ns) <= SumXP(ns)
    ensures EarnedFor(ids, ns) == SumXP(ns) <==> Ids(ns) <= ids
  {
    if ns != [] {
      var tail := ns[1..];
      assert PositiveXP(tail) by {
        forall j | 0 <= j < |tail| ensures tail[j].xp > 0 { assert tail[j] == ns[j + 1]; }
      }
      EarnedForBounded(ids, tail);
      IdsCons(ns);
    }
  }

  lemma IdsCons(ns: seq<Node>)
    requires ns != []
    ensures Ids(ns) == {ns[0].id} + Ids(ns[1..])
  {
    var tail := ns[1..];
    forall x | x in Ids(ns) ensures x in {ns[0].id} + Ids(tail) {
      var j :| 0 <= j < |ns| && ns[j].id == x;
      if j > 0 { assert tail[j - 1] == ns[j]; }
    }
    forall j | 0 <= j < |tail| ensures tail[j].id in Ids(ns) { assert tail[j] == ns[j + 1]; }
  }

  lemma StartConsistent()
    ensures Consistent(Start)
  {
    EarnedForNone(Nodes);
  }

  lemma {:induction false} EarnedForNone(ns: seq<Node>)
    ensures EarnedFor({}, ns) == 0
  {
    if ns != [] {
      EarnedForNone(ns[1..]);
    }
  }

  /** Unlocking keeps the earned counter equal to the XP of the unlocked nodes. */
  lemma UnlockKeepsConsistent(p: Progress, i: nat)
    requires Consistent(p) && i < |Nodes|
    ensures Consistent(UnlockNode(p, i))
  {
    NodesWellFormed();
    if Nodes[i].id !in p.unlocked {
      EarnedForInsert(p.unlocked, Nodes, i);
    }
  }

  /** The state after the visitor opens the nodes at `picks`, in order. */
  function UnlockAll(p: Progress, picks: seq<nat>): Progress
    requires forall k :: 0 <= k < |picks| ==> picks[k] < |Nodes|
    decreases |picks|
  {
    if picks == [] then p else UnlockAll(UnlockNode(p, picks[0]), picks[1..])
  }

  lemma {:induction false} UnlockAllKeepsConsistent(p: Progress, picks: seq<nat>)
    requires Consistent(p)
    requires forall k :: 0 <= k < |picks| ==> picks[k] < |Nodes|
    ensures Consistent(UnlockAll(p, picks))
    ensures p.earned <= UnlockAll(p, picks).earned
    ensures Level(p.earned) <= Level(UnlockAll(p, picks).earned)
    decreases |picks|
  {
    if picks != [] {
      var next := UnlockNode(p, picks[0]);
      UnlockKeepsConsistent(p, picks[0]);
      NodesWellFormed();
      UnlockAllKeepsConsistent(next, picks[1..]);
      LevelMonotone(p.earned, UnlockAll(p, picks).earned);
    }
  }

  /** Any sequence of unlocks from the start earns exactly the XP of the nodes it unlocked. */
  lemma EarnedMatchesUnlocked(picks: seq<nat>)
    requires forall k :: 0 <= k < |picks| ==> picks[k] < |Nodes|
    ensures var p := UnlockAll(Start, picks);
            p.earned == EarnedFor(p.unlocked, Nodes) && p.unlocked <= Ids(Nodes)
  {
    StartConsistent();
    UnlockAllKeepsConsistent(Start, picks);
  }

  // ---------------------------------------------------------------------------
  // Completion and progress
  // ---------------------------------------------------------------------------

  /** The condition for the level-up badge and the confetti. */
  predicate Complete(p: Progress)
    ensures p.unlocked <= Ids(Nodes) ==> (Complete(p) <==> p.unlocked == Ids(Nodes))
  {
    FullCountIsAll(p.unlocked);
    |p.unlocked| == |Nodes| && |p.unlocked| > 0
  }

  /** Among sets of timeline ids, holding as many ids as there are nodes means holding them all. */
  lemma FullCountIsAll(u: set<string>)
    ensures u <= Ids(Nodes) ==> (|u| == |Nodes| && |u| > 0 <==> u == Ids(Nodes))
  {
    NodesWellFormed();
    DistinctIdsCount(Nodes);
    if u <= Ids(Nodes) && |u| == |Nodes| {
      SubsetSameSize(u, Ids(Nodes));
    }
  }

  /** Distinct ids make as many ids as nodes. */
  lemma {:induction false} DistinctIdsCount(ns: seq<Node>)
    requires DistinctIds(ns)
    ensures |Ids(ns)| == |ns|
  {
    if ns != [] {
      var tail := ns[1..];
      assert DistinctIds(tail) by {
        forall a, b | 0 <= a < b < |tail| ensures tail[a].id != tail[b].id {
          assert tail[a] == ns[a + 1] && tail[b] == ns[b + 1];
        }
      }
      DistinctIdsCount(tail);
      IdsCons(ns);
    }
  }

  lemma SubsetSameSize(a: set<string>, b: set<string>)
    requires a <= b && |a| == |b|
    ensures a == b
  {
    if x :| x in b && x !in a {
      SubsetNoLarger(a, b - {x});
    }
  }

  lemma {:induction false} SubsetNoLarger(a: set<string>, b: set<string>)
    requires a <= b
    ensures |a| <= |b|
    decreases a
  {
    if a != {} {
      var y :| y in a;
      SubsetNoLarger(a - {y}, b - {y});
    }
  }

  /** The badge shows exactly when every node is unlocked. */
  lemma CompleteIffAllUnlocked(p: Progress)
    requires Consistent(p)
    ensures Complete(p) <==> p.unlocked == Ids(Nodes)
  {
    FullCountIsAll(p.unlocked);
  }

  /** The badge shows exactly when all the XP there is has been earned. */
  lemma CompleteIffAllEarned(p: Progress)
    requires Consistent(p)
    ensures Complete(p) <==> p.earned == TotalXP()
  {
    CompleteIffAllUnlocked(p);
    NodesWellFormed();
    EarnedForBounded(p.unlocked, Nodes);
  }

  /** The progress bar's width, in percent. */
  function ProgressPercent(earned: int): (pct: real)
    ensures 0 <= earned <= TotalXP() ==> 0.0 <= pct <= 100.0
    ensures pct == 100.0 <==> earned == TotalXP()
  {
    TotalXPValue();
    (earned as real / TotalXP() as real) * 100.0
  }

  lemma ProgressInRange(p: Progress)
    requires Consistent(p)
    ensures 0.0 <= ProgressPercent(p.earned) <= 100.0
    ensures ProgressPercent(p.earned) == 100.0 <==> Complete(p)
  {
    NodesWellFormed();
    EarnedForBounded(p.unlocked, Nodes);
    TotalXPValue();
    CompleteIffAllEarned(p);
  }
}
