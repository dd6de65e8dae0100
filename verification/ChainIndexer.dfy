// The chain indexer: sections of a fixed number of blocks are processed with the lock released, while other
// goroutines move the canonical chain and its notices are handled. What they do is an input: what happens before
// each read of the database, and between the last read and taking the lock again. Child indexers are not modelled.
module ChainIndexers {
  import opened Arithmetic
  import opened Powers
  import opened Blocks

  /** The number of the last block of a section. */
  function LastOf(section: nat, size: nat): int {
    (section + 1) * size - 1
  }

  /** The parent hash of a header continues from the last one; the first header of all has none. */
  predicate Continues(header: Block, last: Option<Block>) {
    header.parent == last
  }

  /** A linked block at the end of a section that descends from the end of the section before. */
  ghost predicate EndsSection(h: Block, section: nat, size: nat, before: Option<Block>) {
    && Linked(h) && h.number == LastOf(section, size)
    && (section == 0 <==> before.None?)
    && (before.Some? ==> IsAncestor(h, before.value) && h.number == before.value.number + size)
  }

  /** Section heads exist exactly below the count, each a descendant of the one before. */
  ghost predicate Chained(heads: map<nat, Block>, stored: nat, size: nat) {
    && (forall i: nat :: i in heads <==> i < stored)
    && (forall i: nat :: i < stored ==> HeadOk(heads, i, size))
  }

  ghost predicate HeadOk(heads: map<nat, Block>, i: nat, size: nat) {
    i in heads && EndsSection(heads[i], i, size, Before(heads, i))
  }

  /** The head of the section before i, none for the first section. */
  function Before(heads: map<nat, Block>, i: nat): Option<Block> {
    if i > 0 && i - 1 in heads then Some(heads[i - 1]) else None
  }

  /** So every section head is an ancestor of all later ones. */
  lemma {:induction false} HeadsAreAncestors(heads: map<nat, Block>, stored: nat, size: nat, i: nat, j: nat)
    requires Chained(heads, stored, size) && i <= j < stored
    ensures i in heads && j in heads && IsAncestor(heads[j], heads[i])
    decreases j
  {
    assert HeadOk(heads, j, size) && HeadOk(heads, i, size);
    if i < j {
      HeadsAreAncestors(heads, stored, size, i, j - 1);
      AncestorOfAncestor(heads[j], heads[j - 1].number, heads[i].number);
    }
  }

  /** A section head on the old chain that lies at or below the fork point is on the new chain too. */
  lemma {:induction false} KeptHeadsAreShared(prev: Block, next: Block, h: Block)
    requires Linked(prev) && Linked(next) && Root(prev) == Root(next) && IsAncestor(prev, h)
    requires h.number <= Common(prev, next).number
    ensures IsAncestor(next, h)
  {
    CommonIsHighest(prev, next, 0);
    SharedBelow(prev, next, Common(prev, next).number, h.number);
  }

  /** The blocks of a section processed so far: the last one descends from the section before. */
  ghost predicate Reached(last: Option<Block>, before: Option<Block>, number: nat) {
    if last.None? then before.None? && number == 0
    else
      && Linked(last.value) && last.value.number + 1 == number
      && (before.Some? ==> IsAncestor(last.value, before.value))
  }

  lemma ReachedNext(last: Option<Block>, header: Block, before: Option<Block>, number: nat)
    requires Reached(last, before, number) && Continues(header, last) && header.number == number
    ensures Reached(Some(header), before, number + 1)
  {
  }

  // ---------------------------------------------------------------- the canonical chain and its notices

  /** Every head the canonical chain has had, and which of them the event loop has handled last. */
  datatype World = World(tips: seq<Block>, handled: nat) {
    /** All heads are blocks of one genesis block. */
    ghost predicate Valid() {
      && handled < |tips|
      && forall k :: 0 <= k < |tips| ==> Linked(tips[k]) && Root(tips[k]) == Root(tips[0])
    }

    function Tip(): Block
      requires |tips| > 0
    {
      tips[|tips| - 1]
    }
  }

  /** What others do while the lock is free: the canonical chain gets a new head, or the oldest notice is handled. */
  datatype Event = Rewrite(tip: Block) | Handle

  /** What a read of the database sees: the canonical chain, or anything while its numbers are being rewritten. */
  datatype Source = FromTip | Torn(found: Option<Block>)

  /** What happens before one block of a section is read, and what the read sees. */
  datatype Turn = Turn(events: seq<Event>, read: Source)

  /** One round of processing: a turn for each block, what happens before the lock is taken again, and the commit. */
  datatype Plan = Plan(turns: seq<Turn>, after: seq<Event>, commits: bool)

  function Next(w: World, e: Event): World {
    match e
    case Rewrite(b) => w.(tips := w.tips + [b])
    case Handle => if w.handled + 1 < |w.tips| then w.(handled := w.handled + 1) else w
  }

  function After(w: World, events: seq<Event>): World {
    if events == [] then w else Next(After(w, events[..|events| - 1]), events[|events| - 1])
  }

  /** The world when the first n blocks have been read. */
  function AfterTurns(w: World, turns: seq<Turn>, n: nat): World
    requires n <= |turns|
  {
    if n == 0 then w else After(AfterTurns(w, turns, n - 1), turns[n - 1].events)
  }

  /** New heads are blocks of the same genesis block. */
  ghost predicate Fits(w: World, events: seq<Event>) {
    |w.tips| > 0 && forall k :: 0 <= k < |events| && events[k].Rewrite? ==>
      Linked(events[k].tip) && Root(events[k].tip) == Root(w.tips[0])
  }

  ghost predicate PlanFits(w: World, plan: Plan, size: nat) {
    |plan.turns| == size && Fits(w, plan.after) && forall k :: 0 <= k < size ==> Fits(w, plan.turns[k].events)
  }

  /** The canonical hash at a number and its header, if the read finds any. */
  function Lookup(w: World, read: Source, number: nat): Option<Block> {
    match read
    case FromTip =>
      if |w.tips| > 0 && Linked(w.Tip()) && number <= w.Tip().number then Some(Ancestor(w.Tip(), number)) else None
    case Torn(found) => if found.Some? && found.value.number == number then found else None
  }

  /** How far a section got: the last header read, unless a header was missing or did not continue the one before. */
  datatype Progress = Broken | Read(last: Option<Block>)

  function ReadNext(w: World, read: Source, number: nat, last: Option<Block>): Progress {
    var header := Lookup(w, read, number);
    if header.None? || !Continues(header.value, last) then Broken else Read(header)
  }

  /** The first n blocks of a section that begins at a number, behind a given header. */
  function ReadBlocks(w: World, turns: seq<Turn>, start: nat, before: Option<Block>, n: nat): Progress
    requires n <= |turns|
  {
    if n == 0 then Read(before)
    else
      match ReadBlocks(w, turns, start, before, n - 1)
      case Broken => Broken
      case Read(last) => ReadNext(AfterTurns(w, turns, n), turns[n - 1].read, start + n - 1, last)
  }

  lemma {:induction false} StaysBroken(w: World, turns: seq<Turn>, start: nat, before: Option<Block>, k: nat, n: nat)
    requires k <= n <= |turns| && ReadBlocks(w, turns, start, before, k).Broken?
    ensures ReadBlocks(w, turns, start, before, n).Broken?
  {
    if k < n {
      StaysBroken(w, turns, start, before, k, n - 1);
    }
  }

  /** The header is on the last handled head's chain, or on that of a head whose notice is still to come. */
  ghost predicate Anchored(w: World, h: Block) {
    exists k :: w.handled <= k < |w.tips| && IsAncestor(w.tips[k], h)
  }

  ghost predicate AllAnchored(w: World, heads: map<nat, Block>) {
    forall i: nat :: i in heads ==> Anchored(w, heads[i])
  }

  /** One chain's block is on another chain if and only if the chains fork at or above it. */
  lemma {:induction false} SharedIffBelowFork(a: Block, b: Block, n: nat)
    requires Linked(a) && Linked(b) && Root(a) == Root(b) && n <= a.number
    ensures IsAncestor(b, Ancestor(a, n)) <==> Common(a, b).number >= n
  {
    CommonIsHighest(a, b, n);
    AncestorFacts(a, n);
    if Common(a, b).number >= n {
      SharedBelow(a, b, Common(a, b).number, n);
    }
  }

  /**
   * A block read from one head is anchored if and only if some head from the last handled one on forks off at or above
   * it.
   */
  lemma {:induction false} AnchoredIff(w: World, read: Block, n: nat)
    requires w.Valid() && Linked(read) && Root(read) == Root(w.tips[0]) && n <= read.number
    ensures Anchored(w, Ancestor(read, n)) <==> Reattached(w, read, n)
  {
    if Anchored(w, Ancestor(read, n)) {
      var k :| w.handled <= k < |w.tips| && IsAncestor(w.tips[k], Ancestor(read, n));
      SharedIffBelowFork(read, w.tips[k], n);
      assert Forks(read, w.tips[k], n);
    }
    if Reattached(w, read, n) {
      var k :| w.handled <= k < |w.tips| && Forks(read, w.tips[k], n);
      SharedIffBelowFork(read, w.tips[k], n);
    }
  }

  /** The two chains fork at or above a height. */
  ghost predicate Forks(a: Block, b: Block, n: nat) {
    Linked(a) && Linked(b) && Root(a) == Root(b) && Common(a, b).number >= n
  }

  ghost predicate Reattached(w: World, read: Block, n: nat) {
    exists k :: w.handled <= k < |w.tips| && Forks(read, w.tips[k], n)
  }

  /** No notice handled since the head number r was the tip reports a fork below the height. */
  ghost predicate Undisturbed(w: World, r: nat, n: nat) {
    forall k :: r <= k < w.handled && k + 1 < |w.tips| ==> Forks(w.tips[k], w.tips[k + 1], n)
  }

  /** Then a block read from that head is still anchored. */
  lemma {:induction false} UndisturbedReattaches(w: World, r: nat, n: nat, k: nat)
    requires w.Valid() && r <= k < |w.tips| && n <= w.tips[r].number
    requires forall j :: r <= j < k ==> Forks(w.tips[j], w.tips[j + 1], n)
    ensures Forks(w.tips[r], w.tips[k], n)
    decreases k
  {
    var h := Ancestor(w.tips[r], n);
    SharedIffBelowFork(w.tips[r], w.tips[k], n);
    if k == r {
      AncestorFacts(w.tips[r], n);
    } else {
      UndisturbedReattaches(w, r, n, k - 1);
      SharedIffBelowFork(w.tips[r], w.tips[k - 1], n);
      assert Forks(w.tips[k - 1], w.tips[k], n);
      AncestorFacts(w.tips[r], n);
      KeptHeadsAreShared(w.tips[k - 1], w.tips[k], h);
    }
  }

  lemma UndisturbedIsEnough(w: World, r: nat, n: nat)
    requires w.Valid() && r < |w.tips| && n <= w.tips[r].number && Undisturbed(w, r, n)
    ensures Reattached(w, w.tips[r], n)
  {
    var k := Max(r, w.handled);
    UndisturbedReattaches(w, r, n, k);
  }

  lemma NextValid(w: World, e: Event)
    requires w.Valid() && Fits(w, [e])
    ensures Next(w, e).Valid() && Extends(w, Next(w, e))
  {
    assert [e][0] == e;
  }

  /** Heads are only added and notices only handled. */
  ghost predicate Extends(w: World, w': World) {
    |w.tips| <= |w'.tips| && w'.tips[..|w.tips|] == w.tips && w.handled <= w'.handled
  }

  lemma ExtendsTrans(a: World, b: World, c: World)
    requires Extends(a, b) && Extends(b, c)
    ensures Extends(a, c)
  {
    assert c.tips[..|b.tips|][..|a.tips|] == c.tips[..|a.tips|];
  }

  lemma FitsExtends(w: World, w': World, events: seq<Event>)
    requires Fits(w, events) && Extends(w, w')
    ensures Fits(w', events)
  {
    assert w'.tips[..|w.tips|][0] == w'.tips[0];
  }

  /** A new head keeps what is anchored. */
  lemma RewriteAnchors(w: World, b: Block, h: Block)
    requires Anchored(w, h)
    ensures Anchored(Next(w, Rewrite(b)), h)
  {
    var k :| w.handled <= k < |w.tips| && IsAncestor(w.tips[k], h);
    var w' := Next(w, Rewrite(b));
    assert w'.tips[k] == w.tips[k];
  }

  /** A handled notice keeps what is anchored, except what lies at or above the fork point it reports. */
  lemma HandleAnchors(w: World, h: Block)
    requires w.Valid() && w.handled + 1 < |w.tips| && Anchored(w, h)
    requires var prev, header := w.tips[w.handled], w.tips[w.handled + 1];
      header.parent == Some(prev) || h.number <= Common(prev, header).number
    ensures Anchored(Next(w, Handle), h)
  {
    var prev, header := w.tips[w.handled], w.tips[w.handled + 1];
    var k :| w.handled <= k < |w.tips| && IsAncestor(w.tips[k], h);
    if k == w.handled {
      if header.parent == Some(prev) {
        assert Ancestor(header, h.number) == Ancestor(prev, h.number);
      } else {
        KeptHeadsAreShared(prev, header, h);
      }
    }
    var w' := Next(w, Handle);
    var j := Max(k, w'.handled);
    assert IsAncestor(w'.tips[j], h);
  }

  class ChainIndexer {
    const sectionSize: nat
    const confirmsReq: nat
    var storedSections: nat
    var knownSections: nat
    var cascadedHead: nat
    var heads: map<nat, Block>
    var world: World

    /** Section heads are chained, and child indexers have not been told of more than is stored. */
    ghost predicate Valid()
      reads this
    {
      && sectionSize > 0 && Chained(heads, storedSections, sectionSize) && world.Valid()
      && cascadedHead <= storedSections * sectionSize
    }

    /** The counts of known and stored sections, and what child indexers have been told. */
    function Now(): Counts
      reads this
    {
      Counts(knownSections, storedSections, cascadedHead)
    }

    /** A new indexer, started at the current head. */
    constructor (section: nat, confirms: nat, tip: Block)
      requires section > 0 && Linked(tip)
      ensures Valid() && storedSections == 0 && sectionSize == section && confirmsReq == confirms
      ensures world == World([tip], 0) && AllAnchored(world, heads)
      ensures knownSections == Known(tip.number, confirms, section)
    {
      sectionSize, confirmsReq, storedSections, heads := section, confirms, 0, map[];
      knownSections := Known(tip.number, confirms, section);
      world, cascadedHead := World([tip], 0), 0;
    }

    /** Lowers the count, removing the heads above it; the caller has set the new head when it raises the count. */
    method SetValidSections(sections: nat)
      requires sections <= storedSections || (sections == storedSections + 1 && sections - 1 in heads)
      modifies this`storedSections, this`heads
      ensures storedSections == sections
      ensures sections > old(storedSections) ==> heads == old(heads)
      ensures forall i: nat :: i in heads <==> i in old(heads) && (i < sections || old(storedSections) <= i)
      ensures forall i: nat :: i in heads ==> heads[i] == old(heads)[i]
    {
      while storedSections > sections
        invariant storedSections <= old(storedSections)
        invariant sections <= storedSections || storedSections == old(storedSections)
        invariant forall i: nat :: i in heads <==> i in old(heads) && (i < storedSections || old(storedSections) <= i)
        invariant forall i: nat :: i in heads ==> heads[i] == old(heads)[i]
        invariant storedSections == old(storedSections) ==> heads == old(heads)
      {
        storedSections := storedSections - 1;
        heads := map i: nat | i in heads && i != storedSections :: heads[i];
      }
      storedSections := sections;
    }

    /**
     * A new head or a reorganisation down to a fork point. After the latter only sections below the fork point are
     * left.
     */
    method NewHead(head: nat, reorg: bool) returns (cascade: Option<nat>)
      requires Valid()
      modifies this`storedSections, this`knownSections, this`cascadedHead, this`heads
      ensures Valid() && storedSections <= old(storedSections) && Kept(old(heads), heads)
      ensures !reorg ==> heads == old(heads) && storedSections == old(storedSections)
      ensures !reorg ==> knownSections == Max(old(knownSections), Known(head, confirmsReq, sectionSize))
      ensures reorg ==> storedSections == Min(old(storedSections), head / sectionSize)
      ensures reorg ==> knownSections == Min(old(knownSections), head / sectionSize)
      ensures reorg ==> forall i: nat :: i in heads ==> heads[i].number < head
      // children hear of the end of the last section below the fork point if they knew of more
      ensures cascadedHead == if cascade.Some? then cascade.value else old(cascadedHead)
      ensures cascade == if reorg && SectionStart(head, sectionSize) < old(cascadedHead)
        then Some(SectionStart(head, sectionSize)) else None
      ensures Now() == if reorg then Reverted(old(Now()), head, sectionSize)
        else Raised(old(Now()), head, confirmsReq, sectionSize)
    {
      cascade := None;
      if reorg {
        var changed := head / sectionSize;
        if changed < knownSections {
          knownSections := changed;
        }
        if changed < storedSections {
          ghost var before := heads;
          SetValidSections(changed);
          PrefixChained(before, old(storedSections), heads, changed, sectionSize);
        }
        BelowFork(heads, storedSections, sectionSize, head);
        var finalised := SectionStart(head, sectionSize);
        ProductGrows(Min(old(storedSections), changed), changed, sectionSize);
        if finalised < cascadedHead {
          cascadedHead := finalised;
          cascade := Some(finalised);
        }
        return;
      }
      if head >= confirmsReq {
        var sections := (head + 1 - confirmsReq) / sectionSize;
        if sections > knownSections {
          knownSections := sections;
        }
      }
    }

    /** The event loop handles the oldest notice: a fork first cuts the sections, then the new head counts. */
    method HandleNotice()
      requires Valid()
      modifies this
      ensures Valid() && world == Next(old(world), Handle)
      ensures storedSections <= old(storedSections) && Advances(old(world), old(heads), world, heads)
      ensures Now() == Noticed(old(Now()), old(world), confirmsReq, sectionSize)
      // a head on top of the last one cuts nothing, and every section it completes is known then
      ensures old(world.handled + 1 < |world.tips|) ==>
        var prev, header := old(world.tips[world.handled]), old(world.tips[world.handled + 1]);
        header.parent == Some(prev) ==>
          && storedSections == old(storedSections) && heads == old(heads)
          && knownSections == Max(old(knownSections), Known(header.number, confirmsReq, sectionSize))
    {
      if world.handled + 1 < |world.tips| {
        var prev, header := world.tips[world.handled], world.tips[world.handled + 1];
        var reorg := header.parent != Some(prev);
        if reorg {
          var _ := NewHead(Common(prev, header).number, true);
        }
        ghost var was := world;
        var _ := NewHead(header.number, false);
        world := Next(world, Handle);
        assert [Handle][0] == Handle;
        NextValid(was, Handle);
        if old(AllAnchored(world, heads)) {
          forall i: nat | i in heads ensures Anchored(world, heads[i]) {
            assert Anchored(was, heads[i]);
            HandleAnchors(was, heads[i]);
          }
        }
      }
    }

    method Happen(e: Event)
      requires Valid() && Fits(world, [e])
      modifies this
      ensures Valid() && world == Next(old(world), e)
      ensures storedSections <= old(storedSections) && Advances(old(world), old(heads), world, heads)
      ensures Now() == CountsNext(old(Now()), old(world), e, confirmsReq, sectionSize)
    {
      match e {
        case Handle => HandleNotice();
        case Rewrite(b) =>
          ghost var was := world;
          NextValid(world, e);
          world := Next(world, e);
          if old(AllAnchored(world, heads)) {
            forall i: nat | i in heads ensures Anchored(world, heads[i]) {
              assert Anchored(was, heads[i]);
              RewriteAnchors(was, b, heads[i]);
            }
          }
      }
    }

    /** What others do while the lock is free. */
    method Interfere(events: seq<Event>)
      requires Valid() && Fits(world, events)
      modifies this
      ensures Valid() && world == After(old(world), events)
      ensures storedSections <= old(storedSections) && Advances(old(world), old(heads), world, heads)
      ensures Now() == CountsAfter(old(Now()), old(world), events, confirmsReq, sectionSize)
    {
      ghost var was, kept := world, heads;
      for i := 0 to |events|
        invariant Valid() && world == After(was, events[..i]) && storedSections <= old(storedSections)
        invariant Advances(was, kept, world, heads)
        invariant Now() == CountsAfter(old(Now()), was, events[..i], confirmsReq, sectionSize)
      {
        OneEvent(was, world, events, i);
        assert events[..i + 1][..i] == events[..i];
        ghost var here, sections := world, heads;
        Happen(events[i]);
        AdvancesTrans(was, kept, here, sections, world, heads);
      }
      assert events[..|events|] == events;
    }

    /** One block of a section: others come first, then the canonical header is read and must continue the last one. */
    method ReadBlock(number: nat, last: Option<Block>, turn: Turn) returns (progress: Progress)
      requires Valid() && Fits(world, turn.events)
      modifies this
      ensures Valid() && world == After(old(world), turn.events) && progress == ReadNext(world, turn.read, number, last)
      ensures storedSections <= old(storedSections) && Advances(old(world), old(heads), world, heads)
      ensures Now() == CountsAfter(old(Now()), old(world), turn.events, confirmsReq, sectionSize)
      ensures progress.Read? ==>
        progress.last.Some? && progress.last.value.number == number && Continues(progress.last.value, last)
    {
      Interfere(turn.events);
      var header := Lookup(world, turn.read, number);
      if header.None? || !Continues(header.value, last) {
        return Broken;
      }
      LookupNumber(world, turn.read, number);
      return Read(header);
    }

    /** Reads a section block by block, each from whatever the database holds at that moment. */
    method ProcessSection(section: nat, before: Option<Block>, plan: Plan)
      returns (last: Option<Block>, ok: bool, ghost taken: nat)
      requires Valid() && section == storedSections && before == Before(heads, section)
      requires PlanFits(world, plan, sectionSize)
      modifies this
      ensures Valid() && storedSections <= old(storedSections) && Advances(old(world), old(heads), world, heads)
      ensures ok <==>
        plan.commits && ReadBlocks(old(world), plan.turns, section * sectionSize, before, sectionSize).Read?
      ensures ok ==> last.Some? && EndsSection(last.value, section, sectionSize, before)
      ensures ok ==> Processed(old(world), world, plan, section, sectionSize, last)
      ensures Took(old(world), plan, section * sectionSize, before, taken) && taken > 0
      ensures world == WorldAt(old(world), plan, taken)
      ensures Now() == CountsAt(old(Now()), old(world), plan, taken, confirmsReq, sectionSize)
    {
      ghost var was, kept := world, heads;
      var progress;
      progress, taken := ReadSection(section, before, plan);
      if progress.Broken? {
        return before, false, taken;
      }
      ghost var read, sections := world, heads;
      FitsExtends(was, world, plan.after);
      Interfere(plan.after);
      AdvancesTrans(was, kept, read, sections, world, heads);
      return progress.last, plan.commits, sectionSize + 1;
    }

    method ReadSection(section: nat, before: Option<Block>, plan: Plan) returns (progress: Progress, ghost taken: nat)
      requires Valid() && section == storedSections && before == Before(heads, section)
      requires PlanFits(world, plan, sectionSize)
      modifies this
      ensures Valid() && storedSections <= old(storedSections) && Advances(old(world), old(heads), world, heads)
      ensures progress.Broken? <==>
        ReadBlocks(old(world), plan.turns, section * sectionSize, before, sectionSize).Broken?
      ensures progress.Read? ==> world == AfterTurns(old(world), plan.turns, sectionSize)
      ensures progress.Read? ==> ReadLast(world, plan, LastOf(section, sectionSize), progress.last)
      ensures progress.Read? ==> EndsSection(progress.last.value, section, sectionSize, before)
      ensures Turned(old(world), plan, section * sectionSize, before, progress, taken)
      ensures world == AfterTurns(old(world), plan.turns, taken)
      ensures Now() == CountsTurns(old(Now()), old(world), plan.turns, taken, confirmsReq, sectionSize)
    {
      ghost var was := world;
      StartOf(heads, section, sectionSize, before);
      progress, taken := ReadFrom(section * sectionSize, before, plan);
      if progress.Read? {
        SectionRead(world, plan, progress.last, section, sectionSize, before, section * sectionSize);
      }
    }

    /** The first k blocks of a section have been read, the last of them `last`, since the indexer was as given. */
    ghost predicate ReadTo(was: World, kept: map<nat, Block>, now: Counts, plan: Plan, start: nat,
                           before: Option<Block>, k: nat, last: Option<Block>)
      reads this
    {
      && Turning(was, kept, now, plan, k) && ReadBlocks(was, plan.turns, start, before, k) == Read(last)
      && Reached(last, before, start + k)
      && (k > 0 ==> last == Lookup(world, plan.turns[k - 1].read, start + k - 1))
    }

    /** The first k turns have been taken. */
    ghost predicate Turning(was: World, kept: map<nat, Block>, now: Counts, plan: Plan, k: nat)
      reads this
    {
      && Valid() && k <= sectionSize && PlanFits(was, plan, sectionSize) && storedSections <= now.stored
      && world == AfterTurns(was, plan.turns, k) && Advances(was, kept, world, heads)
      && Now() == CountsTurns(now, was, plan.turns, k, confirmsReq, sectionSize)
    }

    method ReadFrom(start: nat, before: Option<Block>, plan: Plan) returns (progress: Progress, ghost taken: nat)
      requires Valid() && PlanFits(world, plan, sectionSize) && Reached(before, before, start)
      modifies this
      ensures Turned(old(world), plan, start, before, progress, taken)
      ensures Turning(old(world), old(heads), old(Now()), plan, taken)
      ensures progress.Broken? ==> ReadBlocks(old(world), plan.turns, start, before, sectionSize).Broken?
      ensures progress.Read? ==>
        taken == sectionSize && ReadTo(old(world), old(heads), old(Now()), plan, start, before, taken, progress.last)
    {
      progress, taken := Read(before), 0;
      ghost var was, kept, now := world, heads, Now();
      var k := 0;
      while k < sectionSize
        invariant progress.Read? && ReadTo(was, kept, now, plan, start, before, k, progress.last)
      {
        progress := ReadTurn(start, before, plan, k, progress.last, was, kept, now);
        k := k + 1;
        taken := k;
        if progress.Broken? {
          StaysBroken(was, plan.turns, start, before, k, sectionSize);
          return;
        }
      }
      taken := k;
    }

    /** Turn k of a section. */
    method ReadTurn(start: nat, ghost before: Option<Block>, plan: Plan, k: nat, last: Option<Block>,
                    ghost was: World, ghost kept: map<nat, Block>, ghost now: Counts)
      returns (progress: Progress)
      requires k < sectionSize && ReadTo(was, kept, now, plan, start, before, k, last)
      modifies this
      ensures Turning(was, kept, now, plan, k + 1)
      ensures progress == ReadBlocks(was, plan.turns, start, before, k + 1)
      ensures progress.Read? ==> ReadTo(was, kept, now, plan, start, before, k + 1, progress.last)
    {
      ghost var here, sections := world, heads;
      FitsExtends(was, world, plan.turns[k].events);
      progress := ReadBlock(start + k, last, plan.turns[k]);
      AdvancesTrans(was, kept, here, sections, world, heads);
      if progress.Read? {
        ReachedNext(last, progress.last.value, before, start + k);
      }
    }

    /**
     * Processing the next section succeeds: every read finds a header that continues the one before, and it commits.
     */
    ghost predicate Succeeds(plan: Plan)
      requires |plan.turns| == sectionSize
      reads this
    {
      var start, before := storedSections * sectionSize, Before(heads, storedSections);
      plan.commits && ReadBlocks(world, plan.turns, start, before, sectionSize).Read?
    }

    /** The branch of the update loop that stores a processed section and cascades it. */
    method Store(section: nat, h: Block)
      requires Valid() && storedSections <= section && EndsSection(h, section, sectionSize, Before(heads, section))
      modifies this`heads, this`storedSections, this`cascadedHead
      ensures Valid() && old(storedSections) == section && storedSections == section + 1
      ensures heads == old(heads)[section := h] && cascadedHead == LastOf(section, sectionSize)
      ensures old(AllAnchored(world, heads)) ==> (AllAnchored(world, heads) <==> Anchored(world, h))
    {
      Extended(heads, storedSections, section, sectionSize, h);
      AnchoredMore(world, heads, section, h);
      heads := heads[section := h];
      SetValidSections(section + 1);
      cascadedHead := CascadeTo(section + 1, sectionSize);
    }

    /**
     * One round of the update loop. The new head is stored if and only if processing succeeded and the section before
     * is still the one processed from. It is on the canonical chain if and only if that chain, by the time the lock is
     * taken again, forks off the one of the last read at or above the head.
     */
    method Update(plan: Plan) returns (ghost kept: nat, ghost head: Option<Block>, ghost taken: nat)
      requires Valid() && PlanFits(world, plan, sectionSize)
      modifies this
      ensures Valid() && kept <= old(storedSections) && Extends(old(world), world)
      ensures head.Some? <==> old(knownSections > storedSections) && old(Succeeds(plan))
      // kept sections survived the notices that arrived meanwhile, head is the section's last header if processing
      // succeeded
      ensures storedSections == if kept == old(storedSections) && head.Some? then kept + 1 else kept
      ensures storedSections > kept ==> heads[kept] == head.value
      ensures storedSections > kept ==> Stored(old(world), world, plan, kept, sectionSize, head.value)
      ensures old(knownSections > storedSections) && storedSections == kept ==> knownSections == kept
      ensures storedSections > kept ==> cascadedHead == LastOf(kept, sectionSize)
      ensures forall i: nat :: i < storedSections && i < old(storedSections) ==> heads[i] == old(heads)[i]
      // what happened meanwhile, and what it did to the counts
      ensures taken == 0 <==> old(knownSections <= storedSections)
      ensures Took(old(world), plan, old(storedSections * sectionSize), old(Before(heads, storedSections)), taken)
      ensures world == WorldAt(old(world), plan, taken)
      ensures var now := CountsAt(old(Now()), old(world), plan, taken, confirmsReq, sectionSize);
        && kept == now.stored && (taken == 0 || storedSections > kept ==> knownSections == now.known)
        && (storedSections == kept ==> cascadedHead == now.cascaded)
      ensures old(AllAnchored(world, heads)) ==>
        (AllAnchored(world, heads) <==> storedSections == kept || Anchored(world, heads[kept]))
    {
      kept, head, taken := storedSections, None, 0;
      if knownSections > storedSections {
        var section := storedSections;
        var oldHead := Before(heads, section);
        var newHead, ok;
        newHead, ok, taken := ProcessSection(section, oldHead, plan);
        kept, head := storedSections, if ok then newHead else None;
        SameBefore(heads, storedSections, section, sectionSize, oldHead);
        if ok && oldHead == Before(heads, section) {
          StoredHead(old(world), world, plan, section, sectionSize, newHead.value);
          Store(section, newHead.value);
        } else {
          knownSections := storedSections;
        }
      }
    }

    /** If all has been steady since the world was w and the counts were c, and the chain only grew: n rounds' work. */
    ghost predicate Keeps(c: Counts, w: World, n: nat, steady: bool)
      requires Valid() && w.Valid()
      reads this
    {
      steady && Growing(world, w.handled) ==> CaughtUp(Now(), heads, world, c, w, n, confirmsReq, sectionSize)
    }

    /** Between two rounds of the update loop, and the second. */
    method Step(round: Round, ghost was: World, ghost c: Counts, ghost n: nat, ghost steady: bool)
      returns (ghost anchored: bool, ghost taken: nat)
      requires Valid() && was.Valid() && Extends(was, world) && Keeps(c, was, n, steady)
      requires RoundFits(was, round, sectionSize)
      modifies this
      ensures Valid() && Extends(was, world) && Keeps(c, was, n + 1, steady && Steady(round.plan))
      ensures old(AllAnchored(world, heads)) && anchored ==> AllAnchored(world, heads)
      ensures Calm(round.plan) ==> anchored
      ensures world == WorldAt(After(old(world), round.events), round.plan, taken)
    {
      ghost var here := world;
      Pause(round.events, was, c, n);
      ExtendsTrans(was, here, world);
      PlanFitsExtends(was, world, round.plan, sectionSize);
      ghost var between := world;
      anchored, taken := UpdateOnce(round.plan, was, c, n);
      ExtendsTrans(here, between, world);
      ExtendsTrans(was, here, world);
      if Growing(world, was.handled) {
        GrowingPrefix(between, world, was.handled);
        GrowingPrefix(here, world, was.handled);
      }
    }

    method Pause(events: seq<Event>, ghost was: World, ghost c: Counts, ghost n: nat)
      requires Valid() && was.Valid() && Extends(was, world) && Fits(was, events)
      modifies this
      ensures Valid() && world == After(old(world), events) && Extends(old(world), world)
      ensures old(AllAnchored(world, heads)) ==> AllAnchored(world, heads)
      ensures old(CaughtUp(Now(), heads, world, c, was, n, confirmsReq, sectionSize)) && Growing(world, was.handled) ==>
        CaughtUp(Now(), heads, world, c, was, n, confirmsReq, sectionSize)
    {
      ghost var here, now, sections := world, Now(), heads;
      FitsExtends(was, world, events);
      Interfere(events);
      if CaughtUp(now, sections, here, c, was, n, confirmsReq, sectionSize) && Growing(world, was.handled) {
        GrowingCounts(now, here, events, was.handled, confirmsReq, sectionSize);
        CaughtFollows(now, Now(), sections, heads, here, world, c, was, n, confirmsReq, sectionSize);
      }
    }

    method UpdateOnce(plan: Plan, ghost was: World, ghost c: Counts, ghost n: nat)
      returns (ghost anchored: bool, ghost taken: nat)
      requires Valid() && was.Valid() && Extends(was, world) && PlanFits(world, plan, sectionSize)
      modifies this
      ensures Valid() && Extends(old(world), world) && world == WorldAt(old(world), plan, taken)
      ensures old(AllAnchored(world, heads)) && anchored ==> AllAnchored(world, heads)
      ensures Calm(plan) ==> anchored
      ensures old(CaughtUp(Now(), heads, world, c, was, n, confirmsReq, sectionSize)) && Growing(world, was.handled) ==>
        (Steady(plan) ==> CaughtUp(Now(), heads, world, c, was, n + 1, confirmsReq, sectionSize))
    {
      ghost var here, now, sections := world, Now(), heads;
      ghost var kept, head;
      kept, head, taken := Update(plan);
      if storedSections > kept && Calm(plan) {
        CalmStored(here, world, plan, kept, sectionSize, head.value);
      }
      anchored := storedSections == kept || Anchored(world, heads[kept]);
      ghost var caught := CaughtUp(now, sections, here, c, was, n, confirmsReq, sectionSize);
      if caught && Growing(world, was.handled) && Steady(plan) {
        if taken > 0 {
          GrowingFrom(world, was.handled, here.handled);
          SteadyPlan(here, plan, sections, now.known, now.stored, sectionSize, taken);
          GrowingPlan(now, here, plan, confirmsReq, sectionSize);
          SteadyStored(here, world, plan, kept, sectionSize, head.value);
        }
        CaughtNext(now, Now(), sections, heads, here, world, taken, c, was, n, confirmsReq, sectionSize);
      }
    }

    /**
     * Any interleaving of updates, rewrites and notices. As long as every head that was stored was anchored when it
     * was, all section heads are canonical whenever no notice is outstanding. That is so in particular if no notice is
     * handled between the last read of a section and the storing of its head.
     */
    method Run(rounds: seq<Round>) returns (ghost anchored: bool, ghost taken: seq<nat>)
      requires Valid() && AllAnchored(world, heads)
      requires forall k :: 0 <= k < |rounds| ==> RoundFits(world, rounds[k], sectionSize)
      modifies this
      ensures Valid() && (anchored ==> AllAnchored(world, heads))
      ensures (forall k :: 0 <= k < |rounds| ==> Calm(rounds[k].plan)) ==> anchored
      ensures anchored && world.handled + 1 == |world.tips| ==>
        forall i: nat :: i in heads ==> IsAncestor(world.Tip(), heads[i])
      ensures |taken| == |rounds| && world == WorldAfter(old(world), rounds, taken, |rounds|)
      // on a chain that only grows, every round stores a section as long as one is known
      ensures old(Backed(knownSections, world, sectionSize)) && Growing(world, old(world.handled)) ==>
        (forall k :: 0 <= k < |rounds| ==> Steady(rounds[k].plan)) ==>
          CaughtUp(Now(), heads, world, old(Now()), old(world), |rounds|, confirmsReq, sectionSize)
    {
      anchored, taken := true, [];
      ghost var was, steady := world, Backed(knownSections, world, sectionSize);
      for i := 0 to |rounds|
        invariant Valid() && Extends(was, world) && (anchored ==> AllAnchored(world, heads))
        invariant (forall k :: 0 <= k < i ==> Calm(rounds[k].plan)) ==> anchored
        invariant |taken| == i && world == WorldAfter(was, rounds, taken, i)
        invariant Keeps(old(Now()), was, i, steady)
        invariant steady <==>
          old(Backed(knownSections, world, sectionSize)) && forall k :: 0 <= k < i ==> Steady(rounds[k].plan)
      {
        assert RoundFits(was, rounds[i], sectionSize);
        ghost var stored, took := Step(rounds[i], was, old(Now()), i, steady);
        SameWorlds(was, rounds, taken, took, i);
        anchored, taken, steady := anchored && stored, taken + [took], steady && Steady(rounds[i].plan);
      }
      if anchored && world.handled + 1 == |world.tips| {
        NoneOutstanding(world, heads);
      }
    }
  }

  lemma NoneOutstanding(w: World, heads: map<nat, Block>)
    requires w.Valid() && AllAnchored(w, heads) && w.handled + 1 == |w.tips|
    ensures forall i: nat :: i in heads ==> IsAncestor(w.Tip(), heads[i])
  {
    forall i: nat | i in heads ensures IsAncestor(w.Tip(), heads[i]) {
      assert Anchored(w, heads[i]);
    }
  }

  /**
   * From one state to a later one: heads of the chain are added, section heads only removed, none gets lost from its
   * anchor.
   */
  ghost predicate Advances(w: World, heads: map<nat, Block>, w': World, heads': map<nat, Block>) {
    && Extends(w, w') && Kept(heads, heads')
    && (AllAnchored(w, heads) ==> AllAnchored(w', heads'))
  }

  lemma AdvancesTrans(w0: World, h0: map<nat, Block>, w1: World, h1: map<nat, Block>, w2: World, h2: map<nat, Block>)
    requires Advances(w0, h0, w1, h1) && Advances(w1, h1, w2, h2)
    ensures Advances(w0, h0, w2, h2)
  {
    ExtendsTrans(w0, w1, w2);
  }

  lemma SectionRead(w: World, plan: Plan, last: Option<Block>, section: nat, size: nat, before: Option<Block>,
                    start: nat)
    requires w.Valid() && |plan.turns| == size > 0 && start == section * size
    requires Reached(last, before, start + size) && last == Lookup(w, plan.turns[size - 1].read, start + size - 1)
    requires (section == 0 <==> before.None?) && (before.Some? ==> before.value.number + 1 == start)
    ensures ReadLast(w, plan, LastOf(section, size), last) && EndsSection(last.value, section, size, before)
  {
    assert (section + 1) * size == start + size;
    EndOf(last, section, size, before, start + size);
  }

  /** What happens between two rounds of the update loop and during the second. */
  datatype Round = Round(events: seq<Event>, plan: Plan)

  ghost predicate RoundFits(w: World, round: Round, size: nat) {
    Fits(w, round.events) && PlanFits(w, round.plan, size)
  }

  /** The first number of the section a number is in. */
  function SectionStart(head: nat, size: nat): nat
    requires size > 0
  {
    head / size * size
  }

  /** The last number of the sections stored. */
  function CascadeTo(stored: nat, size: nat): (last: nat)
    requires size > 0 && stored > 0
    ensures last == LastOf(stored - 1, size) && last <= stored * size
  {
    ProductGrows(1, stored, size);
    stored * size - 1
  }

  /** The number of sections a head completes. */
  function Known(head: nat, confirms: nat, size: nat): nat
    requires size > 0
  {
    if head >= confirms then (head + 1 - confirms) / size else 0
  }

  /** The number of sections whose last block has enough blocks behind it. */
  lemma KnownIff(head: nat, confirms: nat, size: nat, k: nat)
    requires size > 0
    ensures k == Known(head, confirms, size) <==>
      if head + 1 < confirms then k == 0
      else k * size + confirms <= head + 1 < (k + 1) * size + confirms
  {
    if head + 1 >= confirms {
      var blocks := head + 1 - confirms;
      assert (k + 1) * size == k * size + size;
      if k * size <= blocks < k * size + size {
        DivMod(blocks, k, blocks - k * size, size);
      }
      assert head + 1 == confirms ==> blocks / size == 0;
      Recomposed(blocks, size);
    }
  }

  lemma Recomposed(blocks: nat, size: nat)
    requires size > 0
    ensures blocks / size * size <= blocks < blocks / size * size + size
  {
  }

  datatype Counts = Counts(known: nat, stored: nat, cascaded: nat)

  /** A fork at a number takes back the sections it is in or below. */
  function Reverted(c: Counts, fork: nat, size: nat): Counts
    requires size > 0
  {
    Counts(Min(c.known, fork / size), Min(c.stored, fork / size), Min(c.cascaded, SectionStart(fork, size)))
  }

  function Raised(c: Counts, head: nat, confirms: nat, size: nat): Counts
    requires size > 0
  {
    c.(known := Max(c.known, Known(head, confirms, size)))
  }

  /** The counts when the oldest notice has been handled. */
  ghost function Noticed(c: Counts, w: World, confirms: nat, size: nat): Counts
    requires size > 0
  {
    if w.handled + 1 < |w.tips| then
      var prev, header := w.tips[w.handled], w.tips[w.handled + 1];
      Raised(if header.parent == Some(prev) then c else Reverted(c, ForkOf(prev, header), size),
             header.number, confirms, size)
    else c
  }

  ghost function ForkOf(a: Block, b: Block): nat {
    if Linked(a) && Linked(b) && Root(a) == Root(b) then Common(a, b).number else 0
  }

  ghost function CountsNext(c: Counts, w: World, e: Event, confirms: nat, size: nat): Counts
    requires size > 0
  {
    if e.Handle? then Noticed(c, w, confirms, size) else c
  }

  ghost function CountsAfter(c: Counts, w: World, events: seq<Event>, confirms: nat, size: nat): Counts
    requires size > 0
  {
    if events == [] then c
    else
      var front, last := events[..|events| - 1], events[|events| - 1];
      CountsNext(CountsAfter(c, w, front, confirms, size), After(w, front), last, confirms, size)
  }

  ghost function CountsTurns(c: Counts, w: World, turns: seq<Turn>, n: nat, confirms: nat, size: nat): Counts
    requires n <= |turns| && size > 0
  {
    if n == 0 then c
    else
      CountsAfter(CountsTurns(c, w, turns, n - 1, confirms, size), AfterTurns(w, turns, n - 1), turns[n - 1].events,
                  confirms, size)
  }

  /** The world after the first n rounds, each carried out as far as given. */
  function WorldAfter(w: World, rounds: seq<Round>, taken: seq<nat>, n: nat): World
    requires n <= |rounds| && n <= |taken|
  {
    if n == 0 then w
    else WorldAt(After(WorldAfter(w, rounds, taken, n - 1), rounds[n - 1].events), rounds[n - 1].plan, taken[n - 1])
  }

  lemma {:induction false} SameWorlds(w: World, rounds: seq<Round>, taken: seq<nat>, took: nat, n: nat)
    requires n <= |rounds| && n <= |taken|
    ensures WorldAfter(w, rounds, taken + [took], n) == WorldAfter(w, rounds, taken, n)
  {
    if n > 0 {
      SameWorlds(w, rounds, taken, took, n - 1);
    }
  }

  /** The world after the first turns of a plan; one more than there are stands for what happens behind them. */
  function WorldAt(w: World, plan: Plan, taken: nat): World {
    if taken <= |plan.turns| then AfterTurns(w, plan.turns, taken)
    else After(AfterTurns(w, plan.turns, |plan.turns|), plan.after)
  }

  ghost function CountsAt(c: Counts, w: World, plan: Plan, taken: nat, confirms: nat, size: nat): Counts
    requires size > 0
  {
    var n := |plan.turns|;
    if taken <= n then CountsTurns(c, w, plan.turns, taken, confirms, size)
    else CountsAfter(CountsTurns(c, w, plan.turns, n, confirms, size), AfterTurns(w, plan.turns, n), plan.after,
                     confirms, size)
  }

  /** Reading stops with the first read that breaks off. */
  ghost predicate Turned(w: World, plan: Plan, start: nat, before: Option<Block>, progress: Progress, taken: nat) {
    && taken <= |plan.turns|
    && (progress.Broken? ==> taken > 0 && ReadBlocks(w, plan.turns, start, before, taken).Broken?)
    && (progress.Read? ==> taken == |plan.turns|)
  }

  /** The plan was not begun, broke off at a read, or was carried out to its end. */
  ghost predicate Took(w: World, plan: Plan, start: nat, before: Option<Block>, taken: nat) {
    && taken <= |plan.turns| + 1
    && (0 < taken <= |plan.turns| ==> ReadBlocks(w, plan.turns, start, before, taken).Broken?)
    && (taken > |plan.turns| ==> ReadBlocks(w, plan.turns, start, before, |plan.turns|).Read?)
  }

  // ---------------------------------------------------------------- a chain that only grows

  /** Every head of the canonical chain from number h on has the one before as parent. */
  ghost predicate Growing(w: World, h: nat) {
    forall k :: h <= k < |w.tips| - 1 ==> w.tips[k + 1].parent == Some(w.tips[k])
  }

  /** A plan whose reads all see the canonical chain and that is committed. */
  predicate Steady(plan: Plan) {
    plan.commits && forall k :: 0 <= k < |plan.turns| ==> plan.turns[k].read.FromTip?
  }

  lemma GrowingPrefix(w: World, w': World, h: nat)
    requires Extends(w, w') && Growing(w', h)
    ensures Growing(w, h)
  {
    forall k | h <= k < |w.tips| - 1 ensures w.tips[k + 1].parent == Some(w.tips[k]) {
      assert w'.tips[..|w.tips|][k] == w'.tips[k] && w'.tips[..|w.tips|][k + 1] == w'.tips[k + 1];
    }
  }

  lemma {:induction false} GrowingAncestors(w: World, h: nat, i: nat, j: nat)
    requires w.Valid() && Growing(w, h) && h <= i <= j < |w.tips|
    ensures IsAncestor(w.tips[j], w.tips[i])
    decreases j
  {
    if i < j {
      GrowingAncestors(w, h, i, j - 1);
      var b := w.tips[j];
      assert w.tips[j - 1 + 1].parent == Some(w.tips[j - 1]);
      assert Ancestor(b, w.tips[i].number) == Ancestor(b.parent.value, w.tips[i].number);
    }
  }

  lemma {:induction false} AfterExtends(w: World, events: seq<Event>)
    ensures Extends(w, After(w, events))
  {
    if events != [] {
      AfterExtends(w, events[..|events| - 1]);
    }
  }

  lemma TurnExtends(w: World, turns: seq<Turn>, n: nat)
    requires n < |turns|
    ensures Extends(AfterTurns(w, turns, n), AfterTurns(w, turns, n + 1))
  {
    AfterExtends(AfterTurns(w, turns, n), turns[n].events);
  }

  lemma {:induction false} TurnsExtend(w: World, turns: seq<Turn>, n: nat)
    requires n <= |turns|
    ensures Extends(w, AfterTurns(w, turns, n))
  {
    if n > 0 {
      TurnsExtend(w, turns, n - 1);
      TurnExtends(w, turns, n - 1);
      ExtendsTrans(w, AfterTurns(w, turns, n - 1), AfterTurns(w, turns, n));
    }
  }

  /** The tip of an earlier moment is an ancestor of a later tip. */
  lemma TipsGrow(a: World, b: World, last: World, h: nat)
    requires Extends(a, b) && Extends(b, last) && last.Valid() && Growing(last, h) && h < |a.tips|
    ensures IsAncestor(b.Tip(), a.Tip()) && Linked(a.Tip()) && Linked(b.Tip())
  {
    var i, j := |a.tips| - 1, |b.tips| - 1;
    assert last.tips[..|b.tips|][j] == last.tips[j];
    assert b.tips[..|a.tips|][i] == b.tips[i] && last.tips[..|b.tips|][i] == last.tips[i];
    GrowingAncestors(last, h, i, j);
  }

  lemma {:induction false} ParentOfAncestor(b: Block, n: nat)
    requires Linked(b) && n <= b.number
    ensures if n == 0 then Ancestor(b, 0).parent == None else Ancestor(b, n).parent == Some(Ancestor(b, n - 1))
  {
    AncestorFacts(b, n);
    if n > 0 {
      AncestorOfAncestor(b, n, n - 1);
    }
  }

  /** The header from which a section starts is on the canonical chain. */
  ghost predicate StartsOn(tip: Block, start: nat, before: Option<Block>) {
    if start == 0 then before.None?
    else before.Some? && IsAncestor(tip, before.value) && before.value.number + 1 == start
  }

  /** While the chain only grows, every read continues the one before. */
  lemma {:induction false} SteadyReads(w: World, plan: Plan, start: nat, before: Option<Block>, n: nat, last: World,
                                       h: nat)
    requires n <= |plan.turns| && Extends(AfterTurns(w, plan.turns, n), last) && last.Valid() && Growing(last, h)
    requires h < |w.tips| && Steady(plan) && Linked(w.Tip()) && StartsOn(w.Tip(), start, before)
    requires start + n <= w.Tip().number + 1
    ensures |AfterTurns(w, plan.turns, n).tips| > 0
    ensures var tip := AfterTurns(w, plan.turns, n).Tip();
      && Linked(tip) && w.Tip().number <= tip.number && StartsOn(tip, start, before)
      && ReadBlocks(w, plan.turns, start, before, n) ==
         Read(if n == 0 then before else Some(Ancestor(tip, start + n - 1)))
  {
    if n > 0 {
      var a, b := AfterTurns(w, plan.turns, n - 1), AfterTurns(w, plan.turns, n);
      TurnExtends(w, plan.turns, n - 1);
      TurnsExtend(w, plan.turns, n - 1);
      ExtendsTrans(a, b, last);
      SteadyReads(w, plan, start, before, n - 1, last, h);
      TipsGrow(a, b, last, h);
      SteadyNext(a, b, start, before, n, if n == 1 then before else Some(Ancestor(a.Tip(), start + n - 2)));
      assert plan.turns[n - 1].read.FromTip?;
    }
  }

  lemma {:induction false} SteadyNext(a: World, b: World, start: nat, before: Option<Block>, n: nat,
                                      last: Option<Block>)
    requires n > 0 && |a.tips| > 0 && |b.tips| > 0 && Linked(a.Tip()) && Linked(b.Tip()) && IsAncestor(b.Tip(), a.Tip())
    requires start + n <= b.Tip().number + 1 && start + n <= a.Tip().number + 2 && StartsOn(a.Tip(), start, before)
    requires last == if n == 1 then before else Some(Ancestor(a.Tip(), start + n - 2))
    ensures StartsOn(b.Tip(), start, before)
    ensures ReadNext(b, FromTip, start + n - 1, last) == Read(Some(Ancestor(b.Tip(), start + n - 1)))
  {
    SteadyRead(a.Tip(), b.Tip(), start, before, n);
  }

  lemma {:induction false} SteadyRead(a: Block, b: Block, start: nat, before: Option<Block>, n: nat)
    requires n > 0 && Linked(a) && Linked(b) && IsAncestor(b, a)
    requires start + n <= b.number + 1 && start + n <= a.number + 2
    requires StartsOn(a, start, before)
    ensures StartsOn(b, start, before)
    ensures Ancestor(b, start + n - 1).parent == if n == 1 then before else Some(Ancestor(a, start + n - 2))
  {
    ParentOfAncestor(b, start + n - 1);
    if start > 0 {
      AncestorOfAncestor(b, a.number, start - 1);
    }
    if n > 1 {
      AncestorOfAncestor(b, a.number, start + n - 2);
    }
  }

  /** The known count follows the last handled head. */
  ghost predicate Follows(c: Counts, c': Counts, w: World, w': World, confirms: nat, size: nat)
    requires size > 0 && w.Valid() && w'.Valid()
  {
    && c'.stored == c.stored && c'.cascaded == c.cascaded
    && c'.known == if w'.handled == w.handled then c.known
       else Max(c.known, Known(w'.tips[w'.handled].number, confirms, size))
  }

  lemma {:induction false} GrowingCounts(c: Counts, w: World, events: seq<Event>, h: nat, confirms: nat, size: nat)
    requires size > 0 && w.Valid() && Fits(w, events) && h <= w.handled && Growing(After(w, events), h)
    ensures After(w, events).Valid()
    ensures Follows(c, CountsAfter(c, w, events, confirms, size), w, After(w, events), confirms, size)
  {
    if events != [] {
      var front, e := events[..|events| - 1], events[|events| - 1];
      var a := After(w, front);
      AfterExtends(w, front);
      AfterExtends(a, [e]);
      assert [e][..0] == [] && After(a, [e]) == Next(a, e);
      GrowingPrefix(a, Next(a, e), h);
      GrowingCounts(c, w, front, h, confirms, size);
      FitsExtends(w, a, events);
      NextValid(a, e);
      FollowsNext(c, w, front, e, h, confirms, size);
    }
  }

  lemma FollowsNext(c: Counts, w: World, front: seq<Event>, e: Event, h: nat, confirms: nat, size: nat)
    requires size > 0 && w.Valid() && After(w, front).Valid() && Next(After(w, front), e).Valid()
    requires h <= w.handled <= After(w, front).handled && Growing(Next(After(w, front), e), h)
    requires Follows(c, CountsAfter(c, w, front, confirms, size), w, After(w, front), confirms, size)
    requires Extends(After(w, front), Next(After(w, front), e))
    ensures var a := After(w, front);
      var c' := CountsNext(CountsAfter(c, w, front, confirms, size), a, e, confirms, size);
      Follows(c, c', w, Next(a, e), confirms, size)
  {
    var a := After(w, front);
    if e.Handle? && a.handled + 1 < |a.tips| {
      assert a.tips[a.handled + 1].parent == Some(a.tips[a.handled]);
      KnownGrows(a.tips[a.handled].number, a.tips[a.handled + 1].number, confirms, size);
    }
  }

  lemma FollowsTrans(c0: Counts, c1: Counts, c2: Counts, w0: World, w1: World, w2: World, confirms: nat, size: nat)
    requires size > 0 && w0.Valid() && w1.Valid() && w2.Valid() && Extends(w0, w1) && Extends(w1, w2)
    requires Growing(w2, w0.handled)
    requires Follows(c0, c1, w0, w1, confirms, size) && Follows(c1, c2, w1, w2, confirms, size)
    ensures Follows(c0, c2, w0, w2, confirms, size)
  {
    var i, j := w1.handled, w2.handled;
    assert w2.tips[..|w1.tips|][i] == w2.tips[i] == w1.tips[i];
    GrowingAncestors(w2, w0.handled, i, j);
    KnownGrows(w1.tips[i].number, w2.tips[j].number, confirms, size);
  }

  lemma {:induction false} GrowingTurns(c: Counts, w: World, turns: seq<Turn>, n: nat, confirms: nat, size: nat)
    requires size > 0 && w.Valid() && n <= |turns| && (forall k :: 0 <= k < n ==> Fits(w, turns[k].events))
    requires Growing(AfterTurns(w, turns, n), w.handled)
    ensures AfterTurns(w, turns, n).Valid()
    ensures Follows(c, CountsTurns(c, w, turns, n, confirms, size), w, AfterTurns(w, turns, n), confirms, size)
  {
    if n > 0 {
      var a, b := AfterTurns(w, turns, n - 1), AfterTurns(w, turns, n);
      var d := CountsTurns(c, w, turns, n - 1, confirms, size);
      TurnExtends(w, turns, n - 1);
      TurnsExtend(w, turns, n - 1);
      GrowingPrefix(a, b, w.handled);
      GrowingTurns(c, w, turns, n - 1, confirms, size);
      FitsExtends(w, a, turns[n - 1].events);
      GrowingCounts(d, a, turns[n - 1].events, w.handled, confirms, size);
      FollowsTrans(c, d, CountsTurns(c, w, turns, n, confirms, size), w, a, b, confirms, size);
    }
  }

  lemma {:induction false} GrowingPlan(c: Counts, w: World, plan: Plan, confirms: nat, size: nat)
    requires w.Valid() && |plan.turns| == size > 0 && PlanFits(w, plan, size)
    requires Growing(WorldAt(w, plan, size + 1), w.handled)
    ensures WorldAt(w, plan, size + 1).Valid()
    ensures Follows(c, CountsAt(c, w, plan, size + 1, confirms, size), w, WorldAt(w, plan, size + 1), confirms, size)
  {
    var a, b := AfterTurns(w, plan.turns, size), WorldAt(w, plan, size + 1);
    var d := CountsTurns(c, w, plan.turns, size, confirms, size);
    AfterExtends(a, plan.after);
    TurnsExtend(w, plan.turns, size);
    GrowingPrefix(a, b, w.handled);
    GrowingTurns(c, w, plan.turns, size, confirms, size);
    FitsExtends(w, a, plan.after);
    GrowingCounts(d, a, plan.after, w.handled, confirms, size);
    FollowsTrans(c, d, CountsAt(c, w, plan, size + 1, confirms, size), w, a, b, confirms, size);
  }

  /** In a chain that only grows, anchored heads are ancestors of the tip. */
  lemma AnchoredOnTip(w: World, h: nat, b: Block)
    requires w.Valid() && h <= w.handled && Growing(w, h) && Anchored(w, b)
    ensures IsAncestor(w.Tip(), b)
  {
    var k :| w.handled <= k < |w.tips| && IsAncestor(w.tips[k], b);
    GrowingAncestors(w, h, k, |w.tips| - 1);
    AncestorOfAncestor(w.Tip(), w.tips[k].number, b.number);
  }

  /** The next section can be read: its last block exists and the head before it is canonical. */
  lemma {:induction false} CanRead(w: World, heads: map<nat, Block>, known: nat, stored: nat, size: nat, h: nat)
    requires size > 0 && w.Valid() && h <= w.handled && Growing(w, h) && Chained(heads, stored, size)
    requires AllAnchored(w, heads) && stored < known && known * size <= w.tips[w.handled].number + 1
    ensures StartsOn(w.Tip(), stored * size, Before(heads, stored)) && stored * size + size <= w.Tip().number + 1
  {
    StartOf(heads, stored, size, Before(heads, stored));
    ProductGrows(stored + 1, known, size);
    GrowingAncestors(w, h, w.handled, |w.tips| - 1);
    if stored > 0 {
      assert Anchored(w, heads[stored - 1]);
      AnchoredOnTip(w, h, heads[stored - 1]);
    }
  }

  /** So a steady plan is carried out to its end. */
  lemma {:induction false} SteadyPlan(w: World, plan: Plan, heads: map<nat, Block>, known: nat, stored: nat,
                                      size: nat, taken: nat)
    requires w.Valid() && |plan.turns| == size > 0 && PlanFits(w, plan, size) && Steady(plan)
    requires Chained(heads, stored, size) && AllAnchored(w, heads)
    requires stored < known && known * size <= w.tips[w.handled].number + 1
    requires taken > 0 && Took(w, plan, stored * size, Before(heads, stored), taken)
    requires WorldAt(w, plan, taken).Valid() && Growing(WorldAt(w, plan, taken), w.handled)
    ensures taken == size + 1 && ReadBlocks(w, plan.turns, stored * size, Before(heads, stored), size).Read?
  {
    var now := WorldAt(w, plan, taken);
    var n := Min(taken, size);
    var read := AfterTurns(w, plan.turns, n);
    TurnsExtend(w, plan.turns, n);
    AfterExtends(read, plan.after);
    if taken <= size {
      assert Extends(read, now);
    }
    ExtendsTrans(w, read, now);
    GrowingPrefix(w, now, w.handled);
    CanRead(w, heads, known, stored, size, w.handled);
    SteadyReads(w, plan, stored * size, Before(heads, stored), n, now, w.handled);
  }

  /** The head of a section read to its end is canonical still. */
  lemma SteadyStored(was: World, now: World, plan: Plan, section: nat, size: nat, h: Block)
    requires Stored(was, now, plan, section, size, h) && Steady(plan) && was.Valid() && Growing(now, was.handled)
    ensures Anchored(now, h)
  {
    var read := AfterTurns(was, plan.turns, size);
    TurnsExtend(was, plan.turns, size);
    TipsGrow(read, now, now, was.handled);
    assert plan.turns[size - 1].read.FromTip?;
    AncestorFacts(read.Tip(), LastOf(section, size));
    AncestorOfAncestor(now.Tip(), read.Tip().number, h.number);
    assert IsAncestor(now.tips[|now.tips| - 1], h);
  }

  /** Every known section ends at or below the last handled head. */
  ghost predicate Backed(known: nat, w: World, size: nat)
    requires w.Valid()
  {
    known * size <= w.tips[w.handled].number + 1
  }

  /**
   * n rounds after the counts were c and the world w, with nothing but growth since: each round has stored a section
   * as long as one was known, the known sections follow the last handled head, and all heads are canonical.
   */
  ghost predicate CaughtUp(now: Counts, heads: map<nat, Block>, world: World, c: Counts, w: World, n: nat,
                           confirms: nat, size: nat)
    requires size > 0 && w.Valid() && world.Valid()
  {
    && Backed(now.known, world, size) && AllAnchored(world, heads)
    && Min(c.stored + n, c.known) <= now.stored <= Max(c.stored, now.known)
    && Follows(c, Counts(now.known, c.stored, c.cascaded), w, world, confirms, size)
  }

  lemma GrowingFrom(w: World, h: nat, k: nat)
    requires Growing(w, h) && h <= k
    ensures Growing(w, k)
  {
  }

  lemma {:induction false} CaughtFollows(now: Counts, now': Counts, heads: map<nat, Block>, heads': map<nat, Block>,
                                         a: World, b: World, c: Counts, w: World, n: nat, confirms: nat, size: nat)
    requires size > 0 && w.Valid() && a.Valid() && b.Valid() && Extends(w, a) && Extends(a, b) && Growing(b, w.handled)
    requires CaughtUp(now, heads, a, c, w, n, confirms, size) && Follows(now, now', a, b, confirms, size)
    requires AllAnchored(b, heads')
    ensures CaughtUp(now', heads', b, c, w, n, confirms, size)
  {
    FollowsTrans(c, Counts(now.known, c.stored, c.cascaded), Counts(now'.known, c.stored, c.cascaded), w, a, b,
                 confirms, size);
    assert b.tips[..|a.tips|][a.handled] == b.tips[a.handled];
    GrowingAncestors(b, w.handled, a.handled, b.handled);
    KnownIff(b.tips[b.handled].number, confirms, size, Known(b.tips[b.handled].number, confirms, size));
  }

  /** One more round: nothing was to be done, or a section was stored. */
  lemma CaughtNext(now: Counts, now': Counts, heads: map<nat, Block>, heads': map<nat, Block>, a: World, b: World,
                   taken: nat, c: Counts, w: World, n: nat, confirms: nat, size: nat)
    requires size > 0 && w.Valid() && a.Valid() && b.Valid() && Extends(w, a) && Extends(a, b) && Growing(b, w.handled)
    requires CaughtUp(now, heads, a, c, w, n, confirms, size) && AllAnchored(b, heads')
    requires taken == 0 ==> now' == now && now.known <= now.stored && b == a
    requires taken > 0 ==> now'.stored == now.stored + 1 <= now.known
    requires taken > 0 ==> Follows(now, Counts(now'.known, now.stored, now.cascaded), a, b, confirms, size)
    ensures CaughtUp(now', heads', b, c, w, n + 1, confirms, size)
  {
    if taken > 0 {
      CaughtFollows(now, Counts(now'.known, now.stored, now.cascaded), heads, heads', a, b, c, w, n, confirms, size);
    }
  }

  lemma KnownGrows(n: nat, m: nat, confirms: nat, size: nat)
    requires size > 0 && n <= m
    ensures Known(n, confirms, size) <= Known(m, confirms, size)
  {
    var j, k := Known(n, confirms, size), Known(m, confirms, size);
    KnownIff(n, confirms, size, j);
    KnownIff(m, confirms, size, k);
    if j > k {
      ProductGrows(k + 1, j, size);
    }
  }

  /** Section heads were only removed. */
  ghost predicate Kept(before: map<nat, Block>, heads: map<nat, Block>) {
    forall i: nat :: i in heads ==> i in before && heads[i] == before[i]
  }

  /** The last header read, when the world was w, is the canonical one of that moment unless the read was torn. */
  ghost predicate ReadLast(w: World, plan: Plan, n: int, last: Option<Block>) {
    && w.Valid() && |plan.turns| > 0 && last.Some?
    && (plan.turns[|plan.turns| - 1].read.FromTip? ==> 0 <= n <= w.Tip().number && last.value == Ancestor(w.Tip(), n))
  }

  /**
   * The stored head h of a section read from the canonical chain: it is canonical, and it is anchored, if and only if
   * the chains of now fork off the one it was read from at or above it.
   */
  ghost predicate Stored(was: World, now: World, plan: Plan, section: nat, size: nat, h: Block) {
    && |plan.turns| == size > 0 && now.Valid()
    && var read := AfterTurns(was, plan.turns, size);
    && read.Valid() && Extends(read, now) && now == After(read, plan.after)
    && var n := LastOf(section, size);
      plan.turns[size - 1].read.FromTip? ==>
        && 0 <= n <= read.Tip().number && h == Ancestor(read.Tip(), n)
        && (IsAncestor(now.Tip(), h) <==> Forks(read.Tip(), now.Tip(), n))
        && (Anchored(now, h) <==> Reattached(now, read.Tip(), n))
        && (Undisturbed(now, |read.tips| - 1, n) ==> Anchored(now, h))
  }

  /** The last read sees the canonical chain, and no notice is handled between it and taking the lock again. */
  predicate Calm(plan: Plan) {
    |plan.turns| > 0 && plan.turns[|plan.turns| - 1].read.FromTip? && Handle !in plan.after
  }

  lemma CalmStored(was: World, now: World, plan: Plan, section: nat, size: nat, h: Block)
    requires Stored(was, now, plan, section, size, h) && Calm(plan)
    ensures Anchored(now, h)
  {
    NothingHandled(AfterTurns(was, plan.turns, size), plan.after);
  }

  lemma {:induction false} NothingHandled(w: World, events: seq<Event>)
    requires Handle !in events
    ensures After(w, events).handled == w.handled
  {
    if events != [] {
      var last := events[|events| - 1];
      assert last in events;
      NothingHandled(w, events[..|events| - 1]);
    }
  }

  /** A section that was read to its end: what was read, and what happened until the lock was taken again. */
  ghost predicate Processed(was: World, now: World, plan: Plan, section: nat, size: nat, last: Option<Block>) {
    && |plan.turns| == size > 0
    && var read := AfterTurns(was, plan.turns, size);
      now == After(read, plan.after) && Extends(read, now) && ReadLast(read, plan, LastOf(section, size), last)
  }

  lemma AnchoredMore(w: World, heads: map<nat, Block>, section: nat, h: Block)
    requires section !in heads
    ensures AllAnchored(w, heads) ==> (AllAnchored(w, heads[section := h]) <==> Anchored(w, h))
  {
    var more := heads[section := h];
    if AllAnchored(w, more) {
      assert Anchored(w, more[section]);
    }
  }

  lemma StoredHead(was: World, now: World, plan: Plan, section: nat, size: nat, h: Block)
    requires now.Valid() && Processed(was, now, plan, section, size, Some(h))
    ensures Stored(was, now, plan, section, size, h)
  {
    var read := AfterTurns(was, plan.turns, size);
    var n := LastOf(section, size);
    if plan.turns[size - 1].read.FromTip? {
      var r := |read.tips| - 1;
      assert now.tips[..|read.tips|][r] == now.tips[r] == read.Tip();
      SharedIffBelowFork(read.Tip(), now.Tip(), n);
      AnchoredIff(now, read.Tip(), n);
      if Undisturbed(now, r, n) {
        UndisturbedIsEnough(now, r, n);
      }
    }
  }

  lemma LookupNumber(w: World, read: Source, number: nat)
    requires Lookup(w, read, number).Some?
    ensures Lookup(w, read, number).value.number == number
  {
    if read.FromTip? {
      AncestorFacts(w.Tip(), number);
    }
  }

  lemma {:induction false} OneEvent(was: World, w: World, events: seq<Event>, i: nat)
    requires i < |events| && Fits(was, events) && Extends(was, w) && w == After(was, events[..i])
    ensures Fits(w, [events[i]]) && Next(w, events[i]) == After(was, events[..i + 1])
  {
    FitsExtends(was, w, events);
    assert events[..i + 1][..i] == events[..i];
  }

  lemma PlanFitsExtends(w: World, w': World, plan: Plan, size: nat)
    requires PlanFits(w, plan, size) && Extends(w, w')
    ensures PlanFits(w', plan, size)
  {
    FitsExtends(w, w', plan.after);
    forall k | 0 <= k < size ensures Fits(w', plan.turns[k].events) {
      FitsExtends(w, w', plan.turns[k].events);
    }
  }

  /**
   * Rewrites that fork inside a section do no harm if the chain returns: a1 is canonical again with a2 on top of it.
   */
  lemma {:induction false} RewrittenBack(g: Block, a1: Block, b1: Block, a2: Block)
    requires Linked(a2) && Linked(b1) && a2.parent == Some(a1) && a1.parent == b1.parent == Some(g) && a1 != b1
    requires g.parent.None?
    ensures !Forks(a1, b1, 1) && !Forks(b1, a2, 1) && Forks(a1, a2, 1) && IsAncestor(a2, a1)
  {
    assert Common(a1, b1) == Common(g, g) == g;
    assert Common(b1, a2) == Common(b1, a1) == Common(g, g) == g;
  }

  /**
   * A new indexer on a chain nobody touches ends, after as many rounds as there are known sections, with all of them
   * stored, each under the canonical block at its last number.
   */
  method IndexAll(size: nat, confirms: nat, tip: Block) returns (c: ChainIndexer)
    requires size > 0 && Linked(tip)
    ensures fresh(c) && c.Valid() && c.storedSections == c.knownSections == Known(tip.number, confirms, size)
    ensures forall i: nat :: i < c.storedSections ==>
      0 <= LastOf(i, size) <= tip.number && i in c.heads && c.heads[i] == Ancestor(tip, LastOf(i, size))
  {
    c := new ChainIndexer(size, confirms, tip);
    var known := c.knownSections;
    KnownIff(tip.number, confirms, size, known);
    var plan := Plan(seq(size, i => Turn([], FromTip)), [], true);
    var rounds := seq(known, i => Round([], plan));
    ghost var was := c.world;
    ghost var anchored, taken := c.Run(rounds);
    QuietWorld(was, rounds, taken, known);
    forall i: nat | i < c.storedSections
      ensures 0 <= LastOf(i, size) <= tip.number && i in c.heads && c.heads[i] == Ancestor(tip, LastOf(i, size))
    {
      assert HeadOk(c.heads, i, size) && Anchored(c.world, c.heads[i]);
    }
  }

  lemma {:induction false} QuietTurns(w: World, turns: seq<Turn>, n: nat)
    requires n <= |turns| && forall k :: 0 <= k < |turns| ==> turns[k].events == []
    ensures AfterTurns(w, turns, n) == w
  {
    if n > 0 {
      QuietTurns(w, turns, n - 1);
    }
  }

  lemma {:induction false} QuietWorld(w: World, rounds: seq<Round>, taken: seq<nat>, n: nat)
    requires n <= |rounds| && n <= |taken|
    requires forall i :: 0 <= i < |rounds| ==> rounds[i].events == [] && rounds[i].plan.after == []
    requires forall i, k :: 0 <= i < |rounds| && 0 <= k < |rounds[i].plan.turns| ==>
      rounds[i].plan.turns[k].events == []
    ensures WorldAfter(w, rounds, taken, n) == w
  {
    if n > 0 {
      QuietWorld(w, rounds, taken, n - 1);
      var plan := rounds[n - 1].plan;
      QuietTurns(w, plan.turns, Min(taken[n - 1], |plan.turns|));
    }
  }

  /**
   * With sections of two blocks: genesis and a1 are read, then b1 replaces a1 and its notice is handled before the
   * lock is taken again. The notice finds nothing to cut, a1 is stored, and stays though b1 is canonical.
   */
  method StaleSection() returns (c: ChainIndexer)
    ensures fresh(c) && c.Valid() && c.storedSections == 1 && c.world.handled + 1 == |c.world.tips|
    ensures 0 in c.heads && !IsAncestor(c.world.Tip(), c.heads[0]) && !Anchored(c.world, c.heads[0])
  {
    var g := Block(None, 0, 1, [], 0);
    var a1, b1 := Block(Some(g), 1, 1, [], 1), Block(Some(g), 1, 2, [], 2);
    c := new ChainIndexer(2, 0, a1);
    var turn := Turn([], FromTip);
    var plan := Plan([turn, turn], [Rewrite(b1), Handle], true);
    ghost var was := c.world;
    ReadBoth(g, a1, plan.turns, was);
    Overtaken(was, a1, b1, plan.after);
    var _, _, _ := c.Update(plan);
  }

  lemma {:induction false} ReadBoth(g: Block, a1: Block, turns: seq<Turn>, w: World)
    requires turns == [Turn([], FromTip), Turn([], FromTip)] && w == World([a1], 0)
    requires Linked(a1) && a1.parent == Some(g) && g.parent.None?
    ensures AfterTurns(w, turns, 2) == w && ReadBlocks(w, turns, 0, None, 2) == Read(Some(a1))
  {
    assert AfterTurns(w, turns, 0) == w && AfterTurns(w, turns, 1) == w;
    assert Ancestor(a1, 0) == g;
    assert ReadBlocks(w, turns, 0, None, 0) == Read(None);
    assert ReadBlocks(w, turns, 0, None, 1) == Read(Some(g));
  }

  lemma {:induction false} Overtaken(w: World, a1: Block, b1: Block, events: seq<Event>)
    requires events == [Rewrite(b1), Handle] && w == World([a1], 0)
    requires Linked(a1) && Linked(b1) && a1.number == b1.number && a1 != b1
    ensures After(w, events) == World([a1, b1], 1) && !Anchored(After(w, events), a1)
  {
    assert events[..1] == [Rewrite(b1)] && events[..1][..0] == [];
    assert After(w, []) == w;
    assert After(w, events[..1]) == World([a1, b1], 0);
  }

  lemma PrefixChained(before: map<nat, Block>, stored: nat, heads: map<nat, Block>, n: nat, size: nat)
    requires Chained(before, stored, size) && n <= stored
    requires forall i: nat :: i in heads <==> i in before && (i < n || stored <= i)
    requires forall i: nat :: i in heads ==> heads[i] == before[i]
    ensures Chained(heads, n, size)
  {
    forall i: nat | i < n ensures HeadOk(heads, i, size) {
      assert HeadOk(before, i, size);
      assert Before(heads, i) == Before(before, i);
    }
  }

  /** Sections counted up to the fork point end below it. */
  lemma BelowFork(heads: map<nat, Block>, stored: nat, size: nat, fork: nat)
    requires Chained(heads, stored, size) && size > 0 && stored <= fork / size
    ensures forall i: nat :: i in heads ==> heads[i].number < fork
  {
    forall i: nat | i in heads ensures heads[i].number < fork {
      assert HeadOk(heads, i, size);
      ProductGrows(i + 1, fork / size, size);
    }
  }

  lemma StartOf(heads: map<nat, Block>, section: nat, size: nat, before: Option<Block>)
    requires Chained(heads, section, size) && before == Before(heads, section)
    ensures Reached(before, before, section * size) && (section + 1) * size == section * size + size
    ensures (section == 0 <==> before.None?) && (before.Some? ==> before.value.number + 1 == section * size)
  {
    if section > 0 {
      assert HeadOk(heads, section - 1, size);
    }
  }

  lemma EndOf(last: Option<Block>, section: nat, size: nat, before: Option<Block>, end: nat)
    requires size > 0 && end == (section + 1) * size && Reached(last, before, end)
    requires (section == 0 <==> before.None?) && (before.Some? ==> before.value.number + 1 + size == end)
    ensures last.Some? && EndsSection(last.value, section, size, before)
  {
  }

  /** The head before a section is unchanged exactly when no notice has cut the sections below it. */
  lemma SameBefore(heads: map<nat, Block>, stored: nat, section: nat, size: nat, before: Option<Block>)
    requires Chained(heads, stored, size) && stored <= section && (section == 0 <==> before.None?)
    requires stored == section ==> Before(heads, section) == before
    ensures stored == section <==> Before(heads, section) == before
  {
  }

  lemma Extended(heads: map<nat, Block>, stored: nat, section: nat, size: nat, h: Block)
    requires Chained(heads, stored, size) && stored <= section && EndsSection(h, section, size, Before(heads, section))
    ensures stored == section && Chained(heads[section := h], section + 1, size)
  {
    var more := heads[section := h];
    forall i: nat | i <= section ensures HeadOk(more, i, size) {
      assert i < section ==> HeadOk(heads, i, size);
      assert Before(more, i) == Before(heads, i);
    }
  }
}
