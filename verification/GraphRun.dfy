/**
 The worklist of `resolve_chain_graph` (`raucle/chain_graph.py`) on the ids of the graph alone:
 why the worklist ends, and exactly when the whole resolution does.
 */
module GraphRun {
  import opened Basics
  import opened ChainGraph
  import opened GraphTurns
  import opened GraphWalk
  import opened GraphResolve

  datatype Item = Item(id: Id, hop: nat)

  // ---- Termination --------------------------------------------------------

  /** The most visits one queued item can cause with `k` hops to go. */
  ghost function Visits(b: nat, k: nat): nat {
    if k == 0 then 1 else 1 + b * Visits(b, k - 1)
  }

  ghost predicate HopsOk(depth: nat, queue: seq<Item>) {
    forall i :: 0 <= i < |queue| ==> queue[i].hop <= depth + 1
  }

  ghost function Weight(b: nat, depth: nat, queue: seq<Item>): nat
    requires HopsOk(depth, queue)
  {
    if queue == [] then 0
    else
      assert queue[0].hop <= depth + 1;
      assert forall i :: 0 <= i < |queue[1..]| ==> queue[1..][i] == queue[i + 1];
      Visits(b, depth + 1 - queue[0].hop) + Weight(b, depth, queue[1..])
  }

  lemma {:induction false} WeightConcat(b: nat, depth: nat, p: seq<Item>, q: seq<Item>)
    requires HopsOk(depth, p) && HopsOk(depth, q) && HopsOk(depth, p + q)
    ensures Weight(b, depth, p + q) == Weight(b, depth, p) + Weight(b, depth, q)
  {
    if p == [] {
      assert p + q == q;
    } else {
      assert (p + q)[1..] == p[1..] + q;
      WeightConcat(b, depth, p[1..], q);
    }
  }

  function Items(ids: seq<Id>, hop: nat): (r: seq<Item>)
    ensures |r| == |ids| && forall i :: 0 <= i < |r| ==> r[i] == Item(ids[i], hop)
  {
    seq(|ids|, i requires 0 <= i < |ids| => Item(ids[i], hop))
  }

  lemma {:induction false} WeightOfItems(b: nat, depth: nat, ids: seq<Id>, hop: nat)
    requires hop <= depth + 1
    ensures Weight(b, depth, Items(ids, hop)) == |ids| * Visits(b, depth + 1 - hop)
  {
    if ids != [] {
      assert Items(ids, hop)[1..] == Items(ids[1..], hop);
      WeightOfItems(b, depth, ids[1..], hop);
      var v := Visits(b, depth + 1 - hop);
      assert |ids| * v == v + |ids[1..]| * v;
    }
  }

  lemma HopsAfter(depth: nat, queue: seq<Item>, next: seq<Id>)
    requires queue != [] && HopsOk(depth, queue) && (next != [] ==> queue[0].hop <= depth)
    ensures queue[0].hop <= depth + 1 && HopsOk(depth, queue[1..]) && HopsOk(depth, Items(next, queue[0].hop + 1))
    ensures HopsOk(depth, queue[1..] + Items(next, queue[0].hop + 1))
  {
  }

  lemma FewerVisits(b: nat, n: nat, k: nat)
    requires n <= b
    ensures n * Visits(b, k) < Visits(b, k + 1)
  {
  }

  lemma WeightHead(b: nat, depth: nat, queue: seq<Item>)
    requires queue != [] && HopsOk(depth, queue)
    ensures queue[0].hop <= depth + 1 && HopsOk(depth, queue[1..])
    ensures Weight(b, depth, queue) == Visits(b, depth + 1 - queue[0].hop) + Weight(b, depth, queue[1..])
  {
  }

  /** Replacing an item by at most `b` items one hop further on lowers the weight. */
  lemma WeightDrops(b: nat, depth: nat, queue: seq<Item>, next: seq<Id>)
    requires queue != [] && HopsOk(depth, queue) && |next| <= b
    requires next != [] ==> queue[0].hop <= depth
    ensures HopsOk(depth, queue[1..] + Items(next, queue[0].hop + 1))
    ensures Weight(b, depth, queue[1..] + Items(next, queue[0].hop + 1)) < Weight(b, depth, queue)
  {
    hide HopsOk, Visits, Weight;
    var hop := queue[0].hop;
    var rest, more := queue[1..], Items(next, hop + 1);
    HopsAfter(depth, queue, next);
    WeightConcat(b, depth, rest, more);
    WeightHead(b, depth, queue);
    if next != [] {
      WeightOfItems(b, depth, next, hop + 1);
      FewerVisits(b, |next|, depth - hop);
    } else {
      assert more == [];
      WeightOfNone(b, depth);
      VisitsPositive(b, depth + 1 - hop);
    }
  }

  lemma WeightOfNone(b: nat, depth: nat)
    ensures Weight(b, depth, []) == 0
  {
  }

  lemma VisitsPositive(b: nat, k: nat)
    ensures Visits(b, k) >= 1
  {
  }

  /** Receipts cite finitely many parents. */
  lemma {:induction false} ParentBound(corpus: map<Id, Receipt>, ids: set<Id>) returns (b: nat)
    requires ids <= corpus.Keys
    ensures forall r :: r in ids ==> |corpus[r].parents| <= b
  {
    if ids == {} {
      b := 0;
    } else {
      var r :| r in ids;
      var c := ParentBound(corpus, ids - {r});
      b := if c < |corpus[r].parents| then |corpus[r].parents| else c;
    }
  }

  // ---- The run ------------------------------------------------------------

  /** The ids of the graph and the queue, between two turns of the worklist. */
  datatype Config = Config(visited: set<Id>, queue: seq<Item>)

  /** The item at the head is a receipt that joins the graph, so its delegation walk is performed. */
  predicate HeadJoins(ctx: Context, c: Config)
    requires c.queue != []
  {
    c.queue[0].hop <= ctx.depth && Joins(ctx, c.visited, c.queue[0].id)
  }

  /** The walk of this turn, if there is one, ends. */
  ghost predicate HeadEnds(ctx: Context, c: Config)
    requires c.queue != []
  {
    HeadJoins(ctx, c) ==> WalkEnds(ctx, c.visited + {c.queue[0].id}, c.queue[0].id, c.queue[0].hop)
  }

  /** The parents this turn queues. */
  function NextIds(ctx: Context, c: Config): seq<Id>
    requires c.queue != []
  {
    if HeadJoins(ctx, c) then ctx.corpus[c.queue[0].id].parents else []
  }

  /** One turn of the worklist. */
  ghost function NextConfig(ctx: Context, c: Config): Config
    requires c.queue != [] && HeadEnds(ctx, c)
  {
    var it := c.queue[0];
    Config(if HeadJoins(ctx, c) then AfterReceipt(ctx, c.visited, it.id, it.hop) else c.visited,
           c.queue[1..] + Items(NextIds(ctx, c), it.hop + 1))
  }

  /** Where the run stands after `n` turns of the worklist; `None` when a walk before that does not end. */
  ghost function ConfigAfter(ctx: Context, c: Config, n: nat): Option<Config>
    decreases n
  {
    if n == 0 || c.queue == [] then Some(c)
    else if !HeadEnds(ctx, c) then None
    else ConfigAfter(ctx, NextConfig(ctx, c), n - 1)
  }

  /** Every walk the run performs ends. */
  ghost predicate WalksEndFrom(ctx: Context, c: Config) {
    forall n: nat :: ConfigAfter(ctx, c, n).Some?
  }

  function Start(ctx: Context): Config {
    Config({}, [Item(ctx.root, 0)])
  }

  lemma WalksEndStep(ctx: Context, c: Config)
    requires c.queue != []
    ensures WalksEndFrom(ctx, c) <==> HeadEnds(ctx, c) && WalksEndFrom(ctx, NextConfig(ctx, c))
  {
    if WalksEndFrom(ctx, c) {
      assert ConfigAfter(ctx, c, 1).Some?;
      forall n: nat
        ensures ConfigAfter(ctx, NextConfig(ctx, c), n).Some?
      {
        assert ConfigAfter(ctx, c, n + 1).Some?;
      }
    } else if HeadEnds(ctx, c) {
      var n: nat :| ConfigAfter(ctx, c, n).None?;
      assert ConfigAfter(ctx, NextConfig(ctx, c), n - 1).None?;
    }
  }

  // ---- Exactly when it halts ----------------------------------------------

  /** The turns of the walk at the head. */
  ghost function HeadTurns(ctx: Context, c: Config): nat
    requires c.queue != [] && HeadEnds(ctx, c)
  {
    var it := c.queue[0];
    if HeadJoins(ctx, c) && ctx.corpus[it.id].capability.GetOr("") != ""
       && ctx.corpus[it.id].capability.value in ctx.tokens
    then
      var w := Walker(c.visited + {it.id}, ctx.depth - it.hop, ctx.corpus[it.id].capability.value);
      EndsIffLastTurn(ctx, w);
      var n: nat :| LastTurn(ctx, w, n);
      n + 1
    else 0
  }

  /** The program halts within `n` iterations, those of the worklist and those of the walks counted together. */
  ghost predicate Halts(ctx: Context, c: Config, n: nat)
    decreases n
  {
    || c.queue == []
    || (HeadEnds(ctx, c) && n > HeadTurns(ctx, c) && Halts(ctx, NextConfig(ctx, c), n - 1 - HeadTurns(ctx, c)))
  }

  lemma {:induction false} HaltingWalksEnd(ctx: Context, c: Config, n: nat, m: nat)
    requires Halts(ctx, c, n)
    ensures ConfigAfter(ctx, c, m).Some?
    decreases m
  {
    if c.queue != [] && m > 0 {
      HaltingWalksEnd(ctx, NextConfig(ctx, c), n - 1 - HeadTurns(ctx, c), m - 1);
    }
  }

  lemma {:induction false} EndingWalksHalt(ctx: Context, c: Config, bound: nat) returns (n: nat)
    requires HopsOk(ctx.depth, c.queue) && WalksEndFrom(ctx, c)
    requires forall r :: r in ctx.corpus ==> |ctx.corpus[r].parents| <= bound
    ensures Halts(ctx, c, n)
    decreases Weight(bound, ctx.depth, c.queue)
  {
    if c.queue == [] {
      n := 0;
    } else {
      WalksEndStep(ctx, c);
      WeightDrops(bound, ctx.depth, c.queue, NextIds(ctx, c));
      var rest := EndingWalksHalt(ctx, NextConfig(ctx, c), bound);
      n := rest + 1 + HeadTurns(ctx, c);
    }
  }

  /** The resolution halts if and only if every delegation walk it performs ends. */
  lemma ResolutionHaltsIff(ctx: Context)
    ensures (exists n: nat :: Halts(ctx, Start(ctx), n)) <==> WalksEndFrom(ctx, Start(ctx))
  {
    if n: nat :| Halts(ctx, Start(ctx), n) {
      forall m: nat
        ensures ConfigAfter(ctx, Start(ctx), m).Some?
      {
        HaltingWalksEnd(ctx, Start(ctx), n, m);
      }
      assert WalksEndFrom(ctx, Start(ctx));
    }
    if WalksEndFrom(ctx, Start(ctx)) {
      var bound := ParentBound(ctx.corpus, ctx.corpus.Keys);
      var last := EndingWalksHalt(ctx, Start(ctx), bound);
      assert Halts(ctx, Start(ctx), last);
      assert exists n: nat :: Halts(ctx, Start(ctx), n);
    }
  }

  /** On the receipt and token both called `r` it halts only when the breadth is one. */
  lemma SelfNamedResolution(depth: nat, breadth: nat)
    requires breadth >= 1
    ensures var ctx := Context(map["r" := Receipt([], Some("r"), None)], map["r" := Some("r")], "r", depth, breadth);
            WalksEndFrom(ctx, Start(ctx)) <==> breadth == 1
  {
    var ctx := Context(map["r" := Receipt([], Some("r"), None)], map["r" := Some("r")], "r", depth, breadth);
    SelfNamedToken(depth, breadth);
    WalksEndStep(ctx, Start(ctx));
    assert {} + {"r"} == {"r"};
    if breadth == 1 {
      var next := NextConfig(ctx, Start(ctx));
      assert next.queue == [];
      assert WalksEndFrom(ctx, next);
    }
  }

  // ---- When it surely halts -----------------------------------------------

  /** Room is kept, ids are ids nodes can have, and queued items are reached from the root. */
  ghost predicate Sound(ctx: Context, visited: set<Id>) {
    |visited| <= ctx.breadth && forall id :: id in visited ==> IsNodeId(ctx, id)
  }

  ghost predicate QueueReached(ctx: Context, queue: seq<Item>) {
    forall i :: 0 <= i < |queue| ==> Reach(ctx, queue[i].hop, queue[i].id)
  }

  lemma WalkedSound(ctx: Context, w: Walker)
    requires Sound(ctx, w.visited) && w.token in ctx.tokens && Ends(ctx, w)
    ensures Sound(ctx, Walked(ctx, w))
  {
    EndsIffLastTurn(ctx, w);
    var n: nat :| LastTurn(ctx, w, n);
    WalkedTo(ctx, w, n);
    TurnsSound(ctx, w, n);
    LastSound(ctx, Turns(ctx, w, n).value);
  }

  lemma TurnsSound(ctx: Context, w: Walker, n: nat)
    requires Sound(ctx, w.visited) && w.token in ctx.tokens && Turns(ctx, w, n).Some?
    ensures Sound(ctx, Turns(ctx, w, n).value.visited) && Turns(ctx, w, n).value.token in ctx.tokens
  {
    hide Passable, Turns, Ancestor, IsNodeId, Below;
    TurnsIff(ctx, w, n);
    forall j | 0 <= j < n
      ensures Ancestor(ctx, w.token, j).Some? && Ancestor(ctx, w.token, j).value in ctx.tokens
    {
      PassableIsRecord(ctx, w, j);
    }
    BelowAreNodeIds(ctx, w.token, n);
    TurnsZero(ctx, w);
    if n > 0 {
      RoomAt(ctx, w, n - 1);
    }
  }

  lemma LastSound(ctx: Context, w: Walker)
    requires Sound(ctx, w.visited) && w.token in ctx.tokens
    ensures Sound(ctx, IdsAfter(ctx, w))
  {
    var node := DelegationId(w.token);
    assert IsNodeId(ctx, node);
    hide IsNodeId;
    if node in w.visited {
      assert w.visited + {node} == w.visited;
    }
  }

  lemma PassableIsRecord(ctx: Context, w: Walker, k: nat)
    requires Passable(ctx, w, k)
    ensures Ancestor(ctx, w.token, k).Some? && Ancestor(ctx, w.token, k).value in ctx.tokens
  {
  }

  lemma {:induction false} AddIdsSound(ctx: Context, visited: set<Id>, ids: seq<Id>)
    requires Sound(ctx, visited) && forall id :: id in ids ==> IsNodeId(ctx, id)
    ensures Sound(ctx, AddIds(ctx.breadth, visited, ids))
  {
    hide IsNodeId;
    if ids != [] {
      AddIdsSound(ctx, visited, ids[..|ids| - 1]);
      assert ids[|ids| - 1] in ids;
    }
  }

  lemma AfterReceiptSound(ctx: Context, visited: set<Id>, r: Id, hop: nat)
    requires Sound(ctx, visited) && Joins(ctx, visited, r) && WalkEnds(ctx, visited + {r}, r, hop)
    ensures Sound(ctx, AfterReceipt(ctx, visited, r, hop))
  {
    JoinedSound(ctx, visited, r);
    var receipt := ctx.corpus[r];
    if receipt.capability.GetOr("") != "" && receipt.capability.value in ctx.tokens {
      WalkedSound(ctx, Walker(visited + {r}, ctx.depth - hop, receipt.capability.value));
    }
    var walked := AfterWalk(ctx, visited + {r}, r, hop);
    if receipt.policy.Some? {
      assert IsNodeId(ctx, PolicyId(r));
      AddIdsSound(ctx, AddId(ctx.breadth, walked, PolicyId(r)), receipt.policy.value);
    }
  }

  lemma JoinedSound(ctx: Context, visited: set<Id>, r: Id)
    requires Sound(ctx, visited) && Joins(ctx, visited, r)
    ensures Sound(ctx, visited + {r})
  {
    if r in visited {
      assert visited + {r} == visited;
    }
  }

  /** No walk of a resolution circles when every chain leaves. */
  lemma LeavingHeadEnds(ctx: Context, c: Config)
    requires WalksLeave(ctx) && Sound(ctx, c.visited) && c.queue != [] && QueueReached(ctx, c.queue)
    ensures HeadEnds(ctx, c)
  {
    if HeadJoins(ctx, c) {
      var it := c.queue[0];
      JoinedSound(ctx, c.visited, it.id);
      WithinByHop(ctx, it.id, it.hop);
      var capability := ctx.corpus[it.id].capability;
      if capability.Some? && capability.value in ctx.tokens {
        LeavingWalkEnds(ctx, Walker(c.visited + {it.id}, ctx.depth - it.hop, capability.value));
      }
    }
  }

  lemma NextReached(ctx: Context, c: Config)
    requires c.queue != [] && QueueReached(ctx, c.queue)
    ensures QueueReached(ctx, c.queue[1..] + Items(NextIds(ctx, c), c.queue[0].hop + 1))
  {
    var it, ids := c.queue[0], NextIds(ctx, c);
    forall i | 0 <= i < |ids|
      ensures Reach(ctx, it.hop + 1, ids[i])
    {
      assert ids[i] in ctx.corpus[it.id].parents;
    }
  }

  lemma {:induction false} LeavingRunEnds(ctx: Context, c: Config, n: nat)
    requires WalksLeave(ctx) && Sound(ctx, c.visited) && QueueReached(ctx, c.queue)
    ensures ConfigAfter(ctx, c, n).Some?
    decreases n
  {
    hide WalksLeave, Sound, QueueReached, HeadEnds, AfterReceipt;
    if n > 0 && c.queue != [] {
      LeavingHeadEnds(ctx, c);
      NextReached(ctx, c);
      NextSound(ctx, c);
      LeavingRunEnds(ctx, NextConfig(ctx, c), n - 1);
    }
  }

  lemma NextSound(ctx: Context, c: Config)
    requires c.queue != [] && Sound(ctx, c.visited) && HeadEnds(ctx, c)
    ensures Sound(ctx, NextConfig(ctx, c).visited)
  {
    hide Sound;
    if HeadJoins(ctx, c) {
      AfterReceiptSound(ctx, c.visited, c.queue[0].id, c.queue[0].hop);
    }
  }

  /** A resolution halts when every chain cited within the depth leaves the records or the node ids. */
  lemma LeavingResolutionHalts(ctx: Context)
    requires WalksLeave(ctx)
    ensures WalksEndFrom(ctx, Start(ctx))
  {
    assert Sound(ctx, {}) && Reach(ctx, 0, ctx.root);
    forall n: nat
      ensures ConfigAfter(ctx, Start(ctx), n).Some?
    {
      LeavingRunEnds(ctx, Start(ctx), n);
    }
  }
}
