/** Whose the unknown icons are (src/services/camera-hearing.ts): pairs of an icon
  * and a player who could be it are taken in order of likelihood, and players with
  * no last sighting fill the icons left over only if the box does not tell those
  * icons apart. The distance of a displacement is a parameter. */
module Elimination {
  import opened Options
  import CameraBoxSearch

  const BOX_MARGIN_DIAMS := 0.25
  const REACH_DIAMS_PER_SEC := 0.45
  const REACH_SLACK_DIAMS := 1.5

  datatype Side = Ally | Enemy
  datatype Player = Player(id: string, side: Side, self: bool)
  datatype Seen = Seen(x: real, y: real, ms: int)

  /** An icon whose owner is not known: where it is, and its scores if matched. */
  datatype Icon = Icon(x: real, y: real, scores: Option<map<string, real>>)

  /** What is known when icons are settled. */
  datatype World = World(
    players: seq<Player>, lastSeen: map<string, Seen>, box: Option<CameraBoxSearch.Box>, iconDiam: real, nowMs: int,
        hypot: (real, real) -> real)

  predicate IsSelf(players: seq<Player>, id: string) { exists p | p in players :: p.id == id && p.self }

  /** Whether a player can be at a place: never named yet, or named near enough to
    * have walked there since; the local player always can. */
  predicate CouldBeAt(w: World, id: string, x: real, y: real) {
    IsSelf(w.players, id) ||
    (id in w.lastSeen ==>
       var seen := w.lastSeen[id];
       var elapsed := if w.nowMs - seen.ms > 0 then w.nowMs - seen.ms else 0;
       w.hypot(seen.x - x, seen.y - y) <=
         w.iconDiam * (REACH_SLACK_DIAMS + REACH_DIAMS_PER_SEC * elapsed as real / 1000.0))
  }

  predicate InBox(w: World, x: real, y: real) {
    w.box.Some? &&
    var b, m := w.box.value, w.iconDiam * BOX_MARGIN_DIAMS;
    b.x0 as real - m <= x <= b.x1 as real + m && b.y0 as real - m <= y <= b.y1 as real + m
  }

  /** In numbers: a player seen `elapsed` ms ago has had 1.5 icons' width and 0.45 more
    * a second to walk. */
  lemma CouldHaveWalked(w: World, id: string, x: real, y: real)
    requires id in w.lastSeen && !IsSelf(w.players, id) && w.nowMs >= w.lastSeen[id].ms
    ensures var elapsed := (w.nowMs - w.lastSeen[id].ms) as real;
            CouldBeAt(w, id, x, y) <==>
              1000.0 * w.hypot(w.lastSeen[id].x - x, w.lastSeen[id].y - y) <= (1500.0 + 0.45 * elapsed) * w.iconDiam
  {
  }

  /** The box with a quarter of an icon's width around it. */
  lemma InBoxIff(w: World, b: CameraBoxSearch.Box, x: real, y: real)
    requires w.box == Some(b)
    ensures InBox(w, x, y) <==>
              && 4.0 * (b.x0 as real - x) <= w.iconDiam && 4.0 * (x - b.x1 as real) <= w.iconDiam
              && 4.0 * (b.y0 as real - y) <= w.iconDiam && 4.0 * (y - b.y1 as real) <= w.iconDiam
  {
  }

  // ---------- The pairs ----------

  datatype Pair = Pair(icon: nat, id: string, tier: int, cost: real)

  /** The pair of an icon and a candidate, if it is to be considered: by how much
    * the icon looks like the player if it was matched, else by how far it is from
    * where the player was last named. */
  function PairOf(w: World, icons: seq<Icon>, i: nat, id: string): Option<Pair>
    requires i < |icons|
  {
    var t := icons[i];
    if !CouldBeAt(w, id, t.x, t.y) then None
    else if t.scores.Some? then Some(Pair(i, id, 0, -(if id in t.scores.value then t.scores.value[id] else -1.0)))
    else if id in w.lastSeen then Some(Pair(i, id, 1, w.hypot(w.lastSeen[id].x - t.x, w.lastSeen[id].y - t.y)))
    else None
  }

  function Optional(p: Option<Pair>): seq<Pair> { if p.Some? then [p.value] else [] }

  /** The pairs of one icon with the first `n` candidates. */
  function PairsOfIcon(w: World, icons: seq<Icon>, i: nat, cands: seq<string>, n: nat): seq<Pair>
    requires i < |icons| && n <= |cands|
  {
    if n == 0 then [] else PairsOfIcon(w, icons, i, cands, n - 1) + Optional(PairOf(w, icons, i, cands[n - 1]))
  }

  /** The pairs of the first `n` icons. */
  function PairsOf(w: World, icons: seq<Icon>, cands: seq<string>, n: nat): seq<Pair>
    requires n <= |icons|
  {
    if n == 0 then [] else PairsOf(w, icons, cands, n - 1) + PairsOfIcon(w, icons, n - 1, cands, |cands|)
  }

  ghost predicate IsPair(w: World, icons: seq<Icon>, cands: seq<string>, p: Pair) {
    p.icon < |icons| && p.id in cands && PairOf(w, icons, p.icon, p.id) == Some(p)
  }

  lemma {:induction false} PairsOfIconAre(w: World, icons: seq<Icon>, i: nat, cands: seq<string>, n: nat, p: Pair)
    requires i < |icons| && n <= |cands|
    ensures p in PairsOfIcon(w, icons, i, cands, n) <==>
            p.icon == i && p.id in cands[..n] && PairOf(w, icons, i, p.id) == Some(p)
  {
    if n > 0 {
      PairsOfIconAre(w, icons, i, cands, n - 1, p);
      assert cands[..n] == cands[..n - 1] + [cands[n - 1]];
    }
  }

  /** The list of pairs holds exactly the pairs to be considered. */
  lemma {:induction false} PairsAre(w: World, icons: seq<Icon>, cands: seq<string>, n: nat, p: Pair)
    requires n <= |icons|
    ensures p in PairsOf(w, icons, cands, n) <==> p.icon < n && IsPair(w, icons, cands, p)
  {
    if n > 0 {
      PairsAre(w, icons, cands, n - 1, p);
      PairsOfIconAre(w, icons, n - 1, cands, |cands|, p);
      assert cands[..|cands|] == cands;
    }
  }

  // ---------- Sorting them ----------

  predicate Before(a: Pair, b: Pair) { a.tier < b.tier || (a.tier == b.tier && a.cost < b.cost) }

  ghost predicate Sorted(ps: seq<Pair>) { forall i, j | 0 <= i < j < |ps| :: !Before(ps[j], ps[i]) }

  function Insert(ps: seq<Pair>, p: Pair): seq<Pair> {
    if ps == [] || !Before(p, ps[|ps| - 1]) then ps + [p]
    else Insert(ps[..|ps| - 1], p) + [ps[|ps| - 1]]
  }

  /** The stable sort by tier, then cost. */
  function Sort(ps: seq<Pair>): seq<Pair> {
    if ps == [] then [] else Insert(Sort(ps[..|ps| - 1]), ps[|ps| - 1])
  }

  /** The pairs of one rank, in order. */
  function OfRank(ps: seq<Pair>, tier: int, cost: real): seq<Pair> {
    if ps == [] then []
    else
      var last := ps[|ps| - 1];
      OfRank(ps[..|ps| - 1], tier, cost) + (if last.tier == tier && last.cost == cost then [last] else [])
  }

  lemma {:induction false} InsertHas(ps: seq<Pair>, p: Pair)
    ensures multiset(Insert(ps, p)) == multiset(ps) + multiset{p}
  {
    if ps != [] && Before(p, ps[|ps| - 1]) {
      InsertHas(ps[..|ps| - 1], p);
      assert ps == ps[..|ps| - 1] + [ps[|ps| - 1]];
    }
  }

  lemma InMultiset(ps: seq<Pair>, x: Pair)
    ensures x in multiset(ps) <==> x in ps
  {
  }

  lemma {:induction false} InsertSorted(ps: seq<Pair>, p: Pair)
    requires Sorted(ps)
    ensures Sorted(Insert(ps, p))
  {
    if ps != [] && Before(p, ps[|ps| - 1]) {
      var init, last := ps[..|ps| - 1], ps[|ps| - 1];
      var r := Insert(init, p);
      InsertSorted(init, p);
      InsertHas(init, p);
      forall i | 0 <= i < |r| ensures !Before(last, r[i]) {
        InMultiset(r, r[i]);
        InMultiset(init, r[i]);
      }
    }
  }

  function IfRank(p: Pair, tier: int, cost: real): seq<Pair> { if p.tier == tier && p.cost == cost then [p] else [] }

  lemma OfRankSnoc(ps: seq<Pair>, p: Pair, tier: int, cost: real)
    ensures OfRank(ps + [p], tier, cost) == OfRank(ps, tier, cost) + IfRank(p, tier, cost)
  {
    assert (ps + [p])[..|ps|] == ps;
  }

  lemma {:induction false} InsertIsStable(ps: seq<Pair>, p: Pair, tier: int, cost: real)
    ensures OfRank(Insert(ps, p), tier, cost) == OfRank(ps, tier, cost) + IfRank(p, tier, cost)
  {
    hide OfRank;
    OfRankSnoc(ps, p, tier, cost);
    if ps != [] && Before(p, ps[|ps| - 1]) {
      var init, last := ps[..|ps| - 1], ps[|ps| - 1];
      InsertIsStable(init, p, tier, cost);
      OfRankSnoc(Insert(init, p), last, tier, cost);
      OfRankSnoc(init, last, tier, cost);
      assert ps == init + [last];
      Swapped(OfRank(init, tier, cost), IfRank(p, tier, cost), IfRank(last, tier, cost));
    }
  }

  lemma Swapped(a: seq<Pair>, b: seq<Pair>, c: seq<Pair>)
    requires b == [] || c == []
    ensures a + b + c == a + c + b
  {
  }

  /** The sort is a sort, and a stable one: pairs of the same rank stay in the
    * order they were listed, icon by icon and candidate by candidate. */
  lemma {:induction false} SortIsStable(ps: seq<Pair>, tier: int, cost: real)
    ensures Sorted(Sort(ps)) && multiset(Sort(ps)) == multiset(ps)
    ensures OfRank(Sort(ps), tier, cost) == OfRank(ps, tier, cost)
  {
    hide Insert, OfRank, Sorted;
    if ps == [] {
      EmptyIsSorted(tier, cost);
    } else {
      var init, last := ps[..|ps| - 1], ps[|ps| - 1];
      assert ps == init + [last];
      SortIsStable(init, tier, cost);
      InsertSorted(Sort(init), last);
      InsertHas(Sort(init), last);
      InsertIsStable(Sort(init), last, tier, cost);
      OfRankSnoc(init, last, tier, cost);
    }
  }

  lemma EmptyIsSorted(tier: int, cost: real)
    ensures Sorted([])
  {
  }

  // ---------- Taking them in order ----------

  /** Each pair in turn is taken if its player and its icon are both still free. */
  function Greedy(ps: seq<Pair>): map<string, nat> {
    if ps == [] then map[]
    else
      var m, p := Greedy(ps[..|ps| - 1]), ps[|ps| - 1];
      if p.id in m || p.icon in m.Values then m else m[p.id := p.icon]
  }

  ghost predicate OneToOne(m: map<string, nat>) {
    forall a, b | a in m && b in m && m[a] == m[b] :: a == b
  }

  predicate Taken(m: map<string, nat>, p: Pair) { p.id in m && m[p.id] == p.icon }

  lemma {:induction false} GreedyTakesPairs(ps: seq<Pair>)
    ensures OneToOne(Greedy(ps))
    ensures forall id | id in Greedy(ps) :: exists p | p in ps :: p.id == id && Taken(Greedy(ps), p)
  {
    if ps != [] {
      var init, last := ps[..|ps| - 1], ps[|ps| - 1];
      GreedyTakesPairs(init);
      assert ps == init + [last];
      forall id | id in Greedy(ps) ensures exists p | p in ps :: p.id == id && Taken(Greedy(ps), p) {
        if id in Greedy(init) {
          var p :| p in init && p.id == id && Taken(Greedy(init), p);
          assert p in ps;
        } else {
          assert last in ps;
        }
      }
    }
  }

  /** What stands in the way of a pair: one taken no later in the list, on its
    * player or on its icon (itself, when it is taken). */
  ghost predicate SettledBy(ps: seq<Pair>, m: map<string, nat>, k: nat, j: nat)
    requires k < |ps|
  {
    j <= k && Taken(m, ps[j]) && (ps[j].id == ps[k].id || ps[j].icon == ps[k].icon)
  }

  lemma {:induction false} GreedySettlesAll(ps: seq<Pair>, k: nat)
    requires k < |ps|
    ensures exists j :: SettledBy(ps, Greedy(ps), k, j)
  {
    var init, last := ps[..|ps| - 1], ps[|ps| - 1];
    var m0, m := Greedy(init), Greedy(ps);
    assert ps == init + [last];
    if k < |init| {
      GreedySettlesAll(init, k);
      var j :| SettledBy(init, m0, k, j);
      assert SettledBy(ps, m, k, j);
    } else if Taken(m, last) {
      assert SettledBy(ps, m, k, k);
    } else {
      GreedyTakesPairs(init);
      var id :| id in m0 && (id == last.id || m0[id] == last.icon);
      var p :| p in init && p.id == id && Taken(m0, p);
      var j :| 0 <= j < |init| && init[j] == p;
      assert SettledBy(ps, m, k, j);
    }
  }

  // ---------- The assignment ----------

  /** The unmatched icons no pair took, in order. */
  function IconsLeft(icons: seq<Icon>, m: map<string, nat>, n: nat): (r: seq<nat>)
    requires n <= |icons|
    ensures forall k | 0 <= k < |r| :: r[k] < n && icons[r[k]].scores.None? && r[k] !in m.Values
    ensures forall j, k | 0 <= j < k < |r| :: r[j] < r[k]
  {
    if n == 0 then []
    else
      IconsLeft(icons, m, n - 1) + (if n - 1 !in m.Values && icons[n - 1].scores.None? then [n - 1] else [])
  }

  /** The candidates never named that no pair placed, in order. */
  function NeverSeen(w: World, cands: seq<string>, m: map<string, nat>): (r: seq<string>)
    ensures forall id | id in r :: id in cands && id !in m && id !in w.lastSeen
  {
    if cands == [] then []
    else
      var rest := NeverSeen(w, cands[..|cands| - 1], m);
      var id := cands[|cands| - 1];
      rest + (if id !in m && id !in w.lastSeen then [id] else [])
  }

  predicate AllInside(w: World, icons: seq<Icon>, idx: seq<nat>, inside: bool) {
    forall k | 0 <= k < |idx| :: idx[k] < |icons| ==> InBox(w, icons[idx[k]].x, icons[idx[k]].y) == inside
  }

  /** The box does not tell these icons apart. */
  predicate SameSide(w: World, icons: seq<Icon>, idx: seq<nat>) {
    AllInside(w, icons, idx, true) || AllInside(w, icons, idx, false)
  }

  /** The n-th of the players goes to the n-th of the icons. */
  function PlaceInOrder(m: map<string, nat>, ids: seq<string>, idx: seq<nat>): map<string, nat>
    requires |ids| <= |idx|
    decreases |ids|
  {
    if ids == [] then m else PlaceInOrder(m, ids[..|ids| - 1], idx)[ids[|ids| - 1] := idx[|ids| - 1]]
  }

  /** The pairs in the order they are taken. */
  function Queue(w: World, icons: seq<Icon>, cands: seq<string>): seq<Pair> { Sort(PairsOf(w, icons, cands, |icons|)) }

  function Settled(w: World, icons: seq<Icon>, cands: seq<string>): map<string, nat> {
    Greedy(Queue(w, icons, cands))
  }

  /** The unknown icon each candidate is given, if any. */
  function Assign(w: World, icons: seq<Icon>, cands: seq<string>): map<string, nat> {
    var m := Settled(w, icons, cands);
    var left, never := IconsLeft(icons, m, |icons|), NeverSeen(w, cands, m);
    if 0 < |never| <= |left| && SameSide(w, icons, left) then PlaceInOrder(m, never, left) else m
  }

  // ---------- What the pairs settle ----------

  ghost predicate Distinct<T>(s: seq<T>) { forall i, j | 0 <= i < j < |s| :: s[i] != s[j] }

  lemma QueueHas(w: World, icons: seq<Icon>, cands: seq<string>, p: Pair)
    ensures p in Queue(w, icons, cands) <==> IsPair(w, icons, cands, p)
  {
    var ps := PairsOf(w, icons, cands, |icons|);
    SortIsStable(ps, 0, 0.0);
    InMultiset(Sort(ps), p);
    InMultiset(ps, p);
    PairsAre(w, icons, cands, |icons|, p);
  }

  lemma SettledIsSound(w: World, icons: seq<Icon>, cands: seq<string>)
    ensures var m := Settled(w, icons, cands);
            OneToOne(m) && forall id | id in m :: m[id] < |icons| && id in cands && PairOf(w, icons, m[id], id).Some?
  {
    var m := Settled(w, icons, cands);
    GreedyTakesPairs(Queue(w, icons, cands));
    forall id | id in m ensures m[id] < |icons| && id in cands && PairOf(w, icons, m[id], id).Some? {
      var p :| p in Queue(w, icons, cands) && p.id == id && Taken(m, p);
      QueueHas(w, icons, cands, p);
    }
  }

  /** A pair that stands in another's way: taken, on the same player or icon, and
    * not after it in (tier, cost) order. */
  ghost predicate Excludes(w: World, icons: seq<Icon>, cands: seq<string>, m: map<string, nat>, q: Pair, p: Pair) {
    IsPair(w, icons, cands, q) && Taken(m, q) && (q.id == p.id || q.icon == p.icon) && !Before(p, q)
  }

  lemma SettledExcludes(w: World, icons: seq<Icon>, cands: seq<string>, p: Pair)
    requires IsPair(w, icons, cands, p)
    ensures exists q :: Excludes(w, icons, cands, Settled(w, icons, cands), q, p)
  {
    hide Queue, Greedy, IsPair;
    var queue, m := Queue(w, icons, cands), Settled(w, icons, cands);
    QueueHas(w, icons, cands, p);
    var k: nat :| k < |queue| && queue[k] == p;
    GreedySettlesAll(queue, k);
    var j: nat :| SettledBy(queue, m, k, j);
    QueueHas(w, icons, cands, queue[j]);
    QueueSorted(w, icons, cands, j, k);
    assert Excludes(w, icons, cands, m, queue[j], p);
  }

  lemma QueueSorted(w: World, icons: seq<Icon>, cands: seq<string>, j: nat, k: nat)
    requires j <= k < |Queue(w, icons, cands)|
    ensures !Before(Queue(w, icons, cands)[k], Queue(w, icons, cands)[j])
  {
    SortIsStable(PairsOf(w, icons, cands, |icons|), 0, 0.0);
  }

  // ---------- Players never named ----------

  lemma {:induction false} NeverSeenHas(w: World, cands: seq<string>, m: map<string, nat>, id: string)
    requires id in cands && id !in m && id !in w.lastSeen
    ensures id in NeverSeen(w, cands, m)
  {
    var init := cands[..|cands| - 1];
    assert cands == init + [cands[|cands| - 1]];
    if id in init { NeverSeenHas(w, init, m, id); }
  }

  lemma {:induction false} NeverSeenDistinct(w: World, cands: seq<string>, m: map<string, nat>)
    requires Distinct(cands)
    ensures Distinct(NeverSeen(w, cands, m))
  {
    if cands != [] {
      var init, last := cands[..|cands| - 1], cands[|cands| - 1];
      NeverSeenDistinct(w, init, m);
      forall id | id in NeverSeen(w, init, m) ensures id != last {
        var i :| 0 <= i < |init| && init[i] == id;
        assert cands[i] != cands[|cands| - 1];
      }
    }
  }

  lemma {:induction false} IconsLeftHas(icons: seq<Icon>, m: map<string, nat>, n: nat, i: nat)
    requires i < n <= |icons| && icons[i].scores.None? && i !in m.Values
    ensures i in IconsLeft(icons, m, n)
  {
    if i < n - 1 { IconsLeftHas(icons, m, n - 1, i); }
  }

  lemma {:induction false} PlaceInOrderIs(m: map<string, nat>, ids: seq<string>, idx: seq<nat>)
    requires |ids| <= |idx| && Distinct(ids) && forall id | id in ids :: id !in m
    ensures forall k | 0 <= k < |ids| ::
              ids[k] in PlaceInOrder(m, ids, idx) && PlaceInOrder(m, ids, idx)[ids[k]] == idx[k]
    ensures forall id | id !in ids ::
              (id in PlaceInOrder(m, ids, idx) <==> id in m) && (id in m ==> PlaceInOrder(m, ids, idx)[id] == m[id])
    decreases |ids|
  {
    if ids != [] {
      var init := ids[..|ids| - 1];
      PlaceInOrderIs(m, init, idx);
      assert ids == init + [ids[|ids| - 1]];
      forall k | 0 <= k < |init| ensures ids[k] != ids[|ids| - 1] && ids[k] == init[k] {}
    }
  }

  /** Whether the players never named are placed: there are some, no more of them
    * than icons left, and where exactly does not matter. */
  predicate PlacesTheRest(w: World, icons: seq<Icon>, cands: seq<string>) {
    var m := Settled(w, icons, cands);
    var left, never := IconsLeft(icons, m, |icons|), NeverSeen(w, cands, m);
    0 < |never| <= |left| && SameSide(w, icons, left)
  }

  lemma AssignIs(w: World, icons: seq<Icon>, cands: seq<string>)
    requires Distinct(cands)
    ensures var m, r := Settled(w, icons, cands), Assign(w, icons, cands);
            var left, never := IconsLeft(icons, m, |icons|), NeverSeen(w, cands, m);
            && (forall id | id !in never :: (id in r <==> id in m) && (id in m ==> r[id] == m[id]))
            && (if PlacesTheRest(w, icons, cands)
                then forall k | 0 <= k < |never| :: k < |left| && never[k] in r && r[never[k]] == left[k]
                else r == m)
  {
    var m := Settled(w, icons, cands);
    var left, never := IconsLeft(icons, m, |icons|), NeverSeen(w, cands, m);
    NeverSeenDistinct(w, cands, m);
    if PlacesTheRest(w, icons, cands) { PlaceInOrderIs(m, never, left); }
  }

  // ---------- The main results ----------

  /** Each placed player is a candidate on an icon it could be at, and no icon
    * holds two players. */
  lemma AssignIsSound(w: World, icons: seq<Icon>, cands: seq<string>)
    requires Distinct(cands)
    ensures var r := Assign(w, icons, cands);
            && OneToOne(r)
            && forall id | id in r :: id in cands && r[id] < |icons| && CouldBeAt(w, id, icons[r[id]].x, icons[r[id]].y)
  {
    hide Settled, CouldBeAt;
    var m, r := Settled(w, icons, cands), Assign(w, icons, cands);
    var left, never := IconsLeft(icons, m, |icons|), NeverSeen(w, cands, m);
    AssignIs(w, icons, cands);
    SettledIsSound(w, icons, cands);
    forall id | id in r ensures id in cands && r[id] < |icons| && CouldBeAt(w, id, icons[r[id]].x, icons[r[id]].y) {
      if id in never {
        var k :| 0 <= k < |never| && never[k] == id;
        NeverNamedCouldBeAnywhere(w, id, icons[r[id]].x, icons[r[id]].y);
      } else {
        PairsCouldBe(w, icons, m[id], id);
      }
    }
    forall a, b | a in r && b in r && r[a] == r[b] ensures a == b {
      OnIconOnce(w, icons, cands, a, b);
    }
  }

  lemma NeverNamedCouldBeAnywhere(w: World, id: string, x: real, y: real)
    requires id !in w.lastSeen
    ensures CouldBeAt(w, id, x, y)
  {
  }

  lemma PairsCouldBe(w: World, icons: seq<Icon>, i: nat, id: string)
    requires i < |icons| && PairOf(w, icons, i, id).Some?
    ensures CouldBeAt(w, id, icons[i].x, icons[i].y)
  {
  }

  lemma OnIconOnce(w: World, icons: seq<Icon>, cands: seq<string>, a: string, b: string)
    requires Distinct(cands)
    requires var r := Assign(w, icons, cands); a in r && b in r && r[a] == r[b]
    ensures a == b
  {
    hide Settled;
    var m, r := Settled(w, icons, cands), Assign(w, icons, cands);
    var left, never := IconsLeft(icons, m, |icons|), NeverSeen(w, cands, m);
    AssignIs(w, icons, cands);
    SettledIsSound(w, icons, cands);
    forall id | id in r ensures if id in never then r[id] !in m.Values else id in m && r[id] == m[id] {
      if id in never {
        var k :| 0 <= k < |never| && never[k] == id;
        assert r[id] == left[k];
      }
    }
    if a in never && b in never {
      var j :| 0 <= j < |never| && never[j] == a;
      var k :| 0 <= k < |never| && never[k] == b;
      assert left[j] == left[k];
    }
  }

  /** A stable assignment: whatever pair was to be considered, one no later in
    * (tier, cost) order was taken on its player or on its icon, itself perhaps.
    * So no such pair is left with both sides free, nor with both sides bound only
    * to pairs later in that order. */
  lemma AssignIsStable(w: World, icons: seq<Icon>, cands: seq<string>, p: Pair)
    requires Distinct(cands) && IsPair(w, icons, cands, p)
    ensures exists q :: Excludes(w, icons, cands, Assign(w, icons, cands), q, p)
  {
    hide Settled, IsPair;
    AssignIs(w, icons, cands);
    SettledExcludes(w, icons, cands, p);
    var q :| Excludes(w, icons, cands, Settled(w, icons, cands), q, p);
    assert Excludes(w, icons, cands, Assign(w, icons, cands), q, p);
  }

  /** A player and an icon it could be at, both left free. */
  ghost predicate FreePair(w: World, icons: seq<Icon>, r: map<string, nat>, i: nat, id: string)
    requires i < |icons|
  {
    CouldBeAt(w, id, icons[i].x, icons[i].y) && id !in r && i !in r.Values
  }

  lemma FreeHasNoPair(w: World, icons: seq<Icon>, cands: seq<string>, i: nat, id: string)
    requires Distinct(cands) && i < |icons| && id in cands && FreePair(w, icons, Assign(w, icons, cands), i, id)
    ensures PairOf(w, icons, i, id) == None
  {
    hide Assign;
    if PairOf(w, icons, i, id).Some? {
      var p := PairOf(w, icons, i, id).value;
      AssignIsStable(w, icons, cands, p);
    }
  }

  lemma FreeIsLeftOver(w: World, icons: seq<Icon>, cands: seq<string>, i: nat, id: string)
    requires Distinct(cands) && i < |icons| && id in cands && FreePair(w, icons, Assign(w, icons, cands), i, id)
    ensures var m := Settled(w, icons, cands);
            !PlacesTheRest(w, icons, cands) && id in NeverSeen(w, cands, m) && i in IconsLeft(icons, m, |icons|)
  {
    hide Settled, CouldBeAt, InBox, Assign;
    var m := Settled(w, icons, cands);
    FreeHasNoPair(w, icons, cands, i, id);
    AssignIs(w, icons, cands);
    assert id !in m;
    if i in m.Values { SettledStays(w, icons, cands, i); }
    NeverSeenHas(w, cands, m, id);
    IconsLeftHas(icons, m, |icons|, i);
    RestIsPlaced(w, icons, cands, id);
  }

  lemma RestIsPlaced(w: World, icons: seq<Icon>, cands: seq<string>, id: string)
    requires Distinct(cands) && id in NeverSeen(w, cands, Settled(w, icons, cands))
    ensures PlacesTheRest(w, icons, cands) ==> id in Assign(w, icons, cands)
  {
    hide Settled, Assign, PlacesTheRest;
    var never := NeverSeen(w, cands, Settled(w, icons, cands));
    AssignIs(w, icons, cands);
    var k :| 0 <= k < |never| && never[k] == id;
  }

  lemma LeftOverIsFree(w: World, icons: seq<Icon>, cands: seq<string>, i: nat, id: string)
    requires Distinct(cands) && i < |icons| && !PlacesTheRest(w, icons, cands)
    requires var m := Settled(w, icons, cands); id in NeverSeen(w, cands, m) && i in IconsLeft(icons, m, |icons|)
    ensures FreePair(w, icons, Assign(w, icons, cands), i, id)
  {
    hide Settled, Assign, PlacesTheRest;
    AssignIs(w, icons, cands);
  }

  /** The only pairs left free on both sides are those of a player never named and
    * an icon never matched that the pairs left over, and only when such players
    * are not placed: there are more of them than such icons, or those icons lie
    * on both sides of the box's edge. */
  lemma FreePairIff(w: World, icons: seq<Icon>, cands: seq<string>, i: nat, id: string)
    requires Distinct(cands) && i < |icons| && id in cands
    ensures var m := Settled(w, icons, cands);
            FreePair(w, icons, Assign(w, icons, cands), i, id) <==>
              !PlacesTheRest(w, icons, cands) && id in NeverSeen(w, cands, m) && i in IconsLeft(icons, m, |icons|)
  {
    hide Settled, Assign, PlacesTheRest, FreePair;
    if FreePair(w, icons, Assign(w, icons, cands), i, id) {
      FreeIsLeftOver(w, icons, cands, i, id);
    } else if !PlacesTheRest(w, icons, cands) {
      var m := Settled(w, icons, cands);
      if id in NeverSeen(w, cands, m) && i in IconsLeft(icons, m, |icons|) { LeftOverIsFree(w, icons, cands, i, id); }
    }
  }

  // ---------- The same, of icons, scores and sightings alone ----------

  /** How much an icon looks like a player: a score not given counts as -1. */
  function LikenessOf(t: Icon, id: string): real
    requires t.scores.Some?
  {
    if id in t.scores.value then t.scores.value[id] else -1.0
  }

  /** How far an icon is from where a player was last seen. */
  function Away(w: World, id: string, t: Icon): real
    requires id in w.lastSeen
  {
    w.hypot(w.lastSeen[id].x - t.x, w.lastSeen[id].y - t.y)
  }

  ghost predicate OnBetterMatch(icons: seq<Icon>, r: map<string, nat>, a: string, likeness: real) {
    a in r && r[a] < |icons| && icons[r[a]].scores.Some? && LikenessOf(icons[r[a]], a) >= likeness
  }

  /** Likeness decides first: whatever matched icon a candidate could be, either the
    * candidate is on a matched icon that looks at least as much like it, or the icon
    * is with someone it looks at least as much like. */
  lemma LikenessDecides(w: World, icons: seq<Icon>, cands: seq<string>, i: nat, a: string)
    requires Distinct(cands) && i < |icons| && icons[i].scores.Some?
    requires a in cands && CouldBeAt(w, a, icons[i].x, icons[i].y)
    ensures var r := Assign(w, icons, cands);
            || OnBetterMatch(icons, r, a, LikenessOf(icons[i], a))
            || exists b | b in r :: r[b] == i && LikenessOf(icons[i], b) >= LikenessOf(icons[i], a)
  {
    hide Assign;
    var p := PairOf(w, icons, i, a).value;
    AssignIsStable(w, icons, cands, p);
    var q :| Excludes(w, icons, cands, Assign(w, icons, cands), q, p);
  }

  /** Then nearness: whatever unmatched icon a candidate seen before could be, either
    * the candidate is on a matched icon or one no further from where it was seen, or
    * the icon is with someone seen no further from it. */
  lemma NearnessDecides(w: World, icons: seq<Icon>, cands: seq<string>, i: nat, a: string)
    requires Distinct(cands) && i < |icons| && icons[i].scores.None?
    requires a in cands && a in w.lastSeen && CouldBeAt(w, a, icons[i].x, icons[i].y)
    ensures var r := Assign(w, icons, cands);
            || (a in r && r[a] < |icons| && (icons[r[a]].scores.Some? ||
                Away(w, a, icons[r[a]]) <= Away(w, a, icons[i])))
            || exists b | b in r :: r[b] == i && b in w.lastSeen && Away(w, b, icons[i]) <= Away(w, a, icons[i])
  {
    hide Assign;
    var p := PairOf(w, icons, i, a).value;
    AssignIsStable(w, icons, cands, p);
    var q :| Excludes(w, icons, cands, Assign(w, icons, cands), q, p);
  }

  /** The candidates never seen that are on no matched icon. */
  function Unplaceable(w: World, icons: seq<Icon>, cands: seq<string>, r: map<string, nat>): set<string> {
    set id | id in cands && id !in w.lastSeen && !(id in r && r[id] < |icons| && icons[r[id]].scores.Some?)
  }

  /** The unmatched icons with no one seen before. */
  function Unclaimed(w: World, icons: seq<Icon>, r: map<string, nat>): set<nat> {
    set i: nat | i < |icons| && icons[i].scores.None? && forall id | id in r && r[id] == i :: id !in w.lastSeen
  }

  /** Whether the rest go on the rest: there are icons enough, and the box does not
    * tell them apart. */
  predicate RestFits(w: World, icons: seq<Icon>, ids: set<string>, left: set<nat>) {
    |ids| <= |left| && forall i, j | i in left && j in left && i < |icons| && j < |icons| ::
      InBox(w, icons[i].x, icons[i].y) == InBox(w, icons[j].x, icons[j].y)
  }

  lemma {:induction false} AsManyDistinct<T>(s: seq<T>)
    requires Distinct(s)
    ensures |set x | x in s| == |s|
  {
    if s != [] {
      var init, last := s[..|s| - 1], s[|s| - 1];
      AsManyDistinct(init);
      assert last !in init && (set x | x in s) == (set x | x in init) + {last};
    }
  }

  lemma UnplaceableAre(w: World, icons: seq<Icon>, cands: seq<string>)
    requires Distinct(cands)
    ensures var m := Settled(w, icons, cands);
            Unplaceable(w, icons, cands, Assign(w, icons, cands)) == set id | id in NeverSeen(w, cands, m)
  {
    hide Settled, PlacesTheRest, CouldBeAt, Assign;
    var m, r := Settled(w, icons, cands), Assign(w, icons, cands);
    var never := NeverSeen(w, cands, m);
    AssignIs(w, icons, cands);
    SettledIsSound(w, icons, cands);
    forall id | id in cands && id !in w.lastSeen
      ensures id in never <==> !(id in r && r[id] < |icons| && icons[r[id]].scores.Some?)
    {
      if id in never {
        var k :| 0 <= k < |never| && never[k] == id;
      } else {
        if id !in m { NeverSeenHas(w, cands, m, id); }
      }
    }
  }

  lemma UnclaimedAre(w: World, icons: seq<Icon>, cands: seq<string>)
    requires Distinct(cands)
    ensures var m := Settled(w, icons, cands);
            Unclaimed(w, icons, Assign(w, icons, cands)) == set i | i in IconsLeft(icons, m, |icons|)
  {
    hide Settled, PlacesTheRest, CouldBeAt, Assign;
    var m, r := Settled(w, icons, cands), Assign(w, icons, cands);
    var left := IconsLeft(icons, m, |icons|);
    AssignIs(w, icons, cands);
    SettledIsSound(w, icons, cands);
    forall i: nat | i < |icons| && icons[i].scores.None?
      ensures i in left <==> forall id | id in r && r[id] == i :: id !in w.lastSeen
    {
      if i in m.Values {
        var id :| id in m && m[id] == i;
        assert id in r && r[id] == i && id in w.lastSeen;
      } else {
        IconsLeftHas(icons, m, |icons|, i);
      }
    }
  }

  lemma RestFitsIs(w: World, icons: seq<Icon>, cands: seq<string>)
    requires Distinct(cands)
    ensures var r := Assign(w, icons, cands);
            var ids, left := Unplaceable(w, icons, cands, r), Unclaimed(w, icons, r);
            PlacesTheRest(w, icons, cands) <==> ids != {} && RestFits(w, icons, ids, left)
  {
    var m := Settled(w, icons, cands);
    var left, never := IconsLeft(icons, m, |icons|), NeverSeen(w, cands, m);
    UnplaceableAre(w, icons, cands);
    UnclaimedAre(w, icons, cands);
    NeverSeenDistinct(w, cands, m);
    AsManyDistinct(never);
    AsManyDistinct(left);
    SameSideIff(w, icons, left);
    hide Settled, Assign, InBox, SameSide, Unplaceable, Unclaimed;
    var ids, free := Unplaceable(w, icons, cands, Assign(w, icons, cands)),
        Unclaimed(w, icons, Assign(w, icons, cands));
    assert |ids| == |never| && |free| == |left|;
    assert forall i :: i in free <==> i in left;
    assert forall i | i in left :: i < |icons|;
    assert ids != {} <==> 0 < |never|;
  }

  lemma SameSideIff(w: World, icons: seq<Icon>, left: seq<nat>)
    requires forall k | 0 <= k < |left| :: left[k] < |icons|
    ensures SameSide(w, icons, left) <==> forall i, j | i in left && j in left ::
              InBox(w, icons[i].x, icons[i].y) == InBox(w, icons[j].x, icons[j].y)
  {
    hide InBox;
    if left != [] {
      var inside := InBox(w, icons[left[0]].x, icons[left[0]].y);
      assert left[0] in left;
      if forall i, j | i in left && j in left :: InBox(w, icons[i].x, icons[i].y) == InBox(w, icons[j].x, icons[j].y) {
        assert AllInside(w, icons, left, inside);
      }
    }
  }

  /** Of those never seen and on no matched icon, all are placed, on icons with no one
    * seen before, if there are enough such icons and the box does not tell them
    * apart; and otherwise none is. */
  lemma RestIsPlacedIff(w: World, icons: seq<Icon>, cands: seq<string>, id: string)
    requires Distinct(cands) && id in Unplaceable(w, icons, cands, Assign(w, icons, cands))
    ensures var r := Assign(w, icons, cands);
            var ids, left := Unplaceable(w, icons, cands, r), Unclaimed(w, icons, r);
            && (id in r <==> RestFits(w, icons, ids, left))
            && (id in r ==> r[id] in left)
  {
    hide Settled, Assign, PlacesTheRest, RestFits, Unplaceable;
    var m := Settled(w, icons, cands);
    var left, never := IconsLeft(icons, m, |icons|), NeverSeen(w, cands, m);
    UnplaceableAre(w, icons, cands);
    UnclaimedAre(w, icons, cands);
    RestFitsIs(w, icons, cands);
    AssignIs(w, icons, cands);
    var k :| 0 <= k < |never| && never[k] == id;
  }

  /** Exactly the pairs left free on both sides. */
  lemma FreePairExactly(w: World, icons: seq<Icon>, cands: seq<string>, i: nat, id: string)
    requires Distinct(cands) && i < |icons| && id in cands
    ensures var r := Assign(w, icons, cands);
            var ids, left := Unplaceable(w, icons, cands, r), Unclaimed(w, icons, r);
            FreePair(w, icons, r, i, id) <==> id in ids && i in left && !RestFits(w, icons, ids, left)
  {
    hide Settled, Assign, PlacesTheRest, RestFits, FreePair, Unplaceable, Unclaimed;
    UnplaceableAre(w, icons, cands);
    UnclaimedAre(w, icons, cands);
    RestFitsIs(w, icons, cands);
    FreePairIff(w, icons, cands, i, id);
  }

  lemma NothingSettled(w: World, icons: seq<Icon>, cands: seq<string>)
    requires w.lastSeen == map[] && forall t | t in icons :: t.scores.None?
    ensures Settled(w, icons, cands) == map[]
  {
    var m := Settled(w, icons, cands);
    if id :| id in m { SettledIsSound(w, icons, cands); }
  }

  /** An icon and a player who could be it, both left with no one: two teammates
    * never named yet and one icon never matched. */
  lemma PairLeftFree(hypot: (real, real) -> real) returns (w: World, icons: seq<Icon>, cands: seq<string>)
    ensures w.players == [Player("a", Ally, false), Player("b", Ally, false)] && cands == ["a", "b"] && |icons| == 1
    ensures FreePair(w, icons, Assign(w, icons, cands), 0, "a") && FreePair(w, icons, Assign(w, icons, cands), 0, "b")
  {
    w := World([Player("a", Ally, false), Player("b", Ally, false)], map[], None, 30.0, 0, hypot);
    icons, cands := [Icon(0.0, 0.0, None)], ["a", "b"];
    NothingSettled(w, icons, cands);
    assert "a"[0] != "b"[0];
    assert cands[..1] == ["a"] && cands[..1][..0] == [];
    assert NeverSeen(w, cands[..1], map[]) == ["a"];
    assert NeverSeen(w, cands, map[]) == cands;
    assert IconsLeft(icons, map[], 0) == [] && IconsLeft(icons, map[], 1) == [0];
    LeftOverIsFree(w, icons, cands, 0, "a");
    LeftOverIsFree(w, icons, cands, 0, "b");
  }

  lemma SettledStays(w: World, icons: seq<Icon>, cands: seq<string>, i: nat)
    requires Distinct(cands) && i in Settled(w, icons, cands).Values
    ensures i in Assign(w, icons, cands).Values
  {
    hide Settled;
    AssignIs(w, icons, cands);
    var m := Settled(w, icons, cands);
    var id :| id in m && m[id] == i;
    assert id in Assign(w, icons, cands);
  }

  // ---------- How many are heard by elimination ----------

  function IconsInBox(w: World, icons: seq<Icon>): set<nat> {
    set i: nat | i < |icons| && InBox(w, icons[i].x, icons[i].y)
  }

  ghost function HeardByElimination(w: World, icons: seq<Icon>, r: map<string, nat>): set<string> {
    set id | id in r && r[id] in IconsInBox(w, icons)
  }

  lemma {:induction false} OneToOneCounts(r: map<string, nat>, from: set<string>, to: set<nat>)
    requires OneToOne(r) && forall id | id in from :: id in r && r[id] in to
    ensures |from| <= |to|
  {
    if from != {} {
      var id :| id in from;
      OneToOneCounts(r, from - {id}, to - {r[id]});
    }
  }

  /** Players heard by elimination alone never outnumber the unknown icons inside
    * the box. */
  lemma HeardAtMostIcons(w: World, icons: seq<Icon>, cands: seq<string>)
    requires Distinct(cands)
    ensures |HeardByElimination(w, icons, Assign(w, icons, cands))| <= |IconsInBox(w, icons)|
  {
    AssignIsSound(w, icons, cands);
    OneToOneCounts(Assign(w, icons, cands), HeardByElimination(w, icons, Assign(w, icons, cands)),
        IconsInBox(w, icons));
  }

  // ---------- As it runs ----------

  method TakePairs(queue: seq<Pair>) returns (placed: map<string, nat>)
    ensures placed == Greedy(queue)
  {
    placed := map[];
    var usedIcons: set<nat> := {};
    assert queue[..0] == [];
    for k := 0 to |queue|
      invariant placed == Greedy(queue[..k]) && usedIcons == placed.Values
    {
      var p := queue[k];
      assert queue[..k + 1][..k] == queue[..k];
      if p.id in placed || p.icon in usedIcons { continue; }
      ValuesAdd(placed, p.id, p.icon);
      placed := placed[p.id := p.icon];
      usedIcons := usedIcons + {p.icon};
    }
    assert queue[..|queue|] == queue;
  }

  lemma ValuesAdd(m: map<string, nat>, id: string, i: nat)
    requires id !in m
    ensures m[id := i].Values == m.Values + {i}
  {
    var m' := m[id := i];
    forall v | v in m.Values + {i} ensures v in m'.Values {
      if v == i { assert m'[id] == v; } else {
        var k :| k in m && m[k] == v;
        assert m'[k] == v;
      }
    }
  }

  method ListPairsOfIcon(w: World, icons: seq<Icon>, i: nat, cands: seq<string>) returns (pairs: seq<Pair>)
    requires i < |icons|
    ensures pairs == PairsOfIcon(w, icons, i, cands, |cands|)
  {
    hide CouldBeAt;
    pairs := [];
    var t := icons[i];
    for j := 0 to |cands|
      invariant pairs == PairsOfIcon(w, icons, i, cands, j)
    {
      var id := cands[j];
      if !CouldBeAt(w, id, t.x, t.y) { continue; }
      if t.scores.Some? {
        pairs := pairs + [Pair(i, id, 0, -(if id in t.scores.value then t.scores.value[id] else -1.0))];
      } else if id in w.lastSeen {
        pairs := pairs + [Pair(i, id, 1, w.hypot(w.lastSeen[id].x - t.x, w.lastSeen[id].y - t.y))];
      }
    }
  }

  method ListPairs(w: World, icons: seq<Icon>, cands: seq<string>) returns (pairs: seq<Pair>)
    ensures pairs == PairsOf(w, icons, cands, |icons|)
  {
    pairs := [];
    for i := 0 to |icons|
      invariant pairs == PairsOf(w, icons, cands, i)
    {
      var more := ListPairsOfIcon(w, icons, i, cands);
      pairs := pairs + more;
    }
  }

  method PlaceRest(m: map<string, nat>, ids: seq<string>, idx: seq<nat>) returns (placed: map<string, nat>)
    requires |ids| <= |idx|
    ensures placed == PlaceInOrder(m, ids, idx)
  {
    placed := m;
    assert ids[..0] == [];
    for k := 0 to |ids|
      invariant placed == PlaceInOrder(m, ids[..k], idx)
    {
      assert ids[..k + 1][..k] == ids[..k];
      placed := placed[ids[k] := idx[k]];
    }
    assert ids[..|ids|] == ids;
  }

  method AssignUnknown(w: World, icons: seq<Icon>, cands: seq<string>) returns (placed: map<string, nat>)
    ensures placed == Assign(w, icons, cands)
  {
    hide Greedy, Sort, PairsOf, CouldBeAt, InBox;
    var pairs := ListPairs(w, icons, cands);
    placed := TakePairs(Sort(pairs));
    ghost var m := placed;
    assert m == Settled(w, icons, cands);
    var iconsLeft: seq<nat> := [];
    for i := 0 to |icons|
      invariant iconsLeft == IconsLeft(icons, m, i)
    {
      if i !in placed.Values && icons[i].scores.None? { iconsLeft := iconsLeft + [i]; }
    }
    var neverSeen: seq<string> := [];
    assert cands[..0] == [];
    for j := 0 to |cands|
      invariant neverSeen == NeverSeen(w, cands[..j], m)
    {
      assert cands[..j + 1][..j] == cands[..j];
      if cands[j] !in placed && cands[j] !in w.lastSeen { neverSeen := neverSeen + [cands[j]]; }
    }
    assert cands[..|cands|] == cands;
    if |neverSeen| > 0 && |neverSeen| <= |iconsLeft| && SameSide(w, icons, iconsLeft) {
      placed := PlaceRest(placed, neverSeen, iconsLeft);
    }
  }
}
