/** The durable store (core/store.go): the file is one atomic cell, replaced only by heavier chains. */
module Store {
  import opened Types
  import opened Ledger
  import opened Params
  import opened Difficulty
  import opened Consensus
  import opened Invariant
  import opened Reachable
  import opened Wire
  import opened Snapshot
  import opened ChainNode

  // ---- encoding and decoding a whole chain ----

  /** A state the node can be in, seen by some clock. */
  ghost predicate Sound(r: Rules, s: State, clock: int)
    requires UsableParams(r.p)
  {
    Inv(r, s, clock) && Linked(s.index) && Attached(s.index, s.tip)
  }

  /** `encodeCanonicalSnapshot`: one frame per main-chain block above genesis. */
  ghost function Encoded(s: State): Option<seq<Byte>> {
    if Linked(s.index) && Attached(s.index, s.tip) && Framable(Branch(s.index, s.tip))
    then Some(Saved(Branch(s.index, s.tip), 1))
    else None
  }

  /** Encoding never fails on a state the node can be in. */
  lemma {:induction false} SoundEncodes(r: Rules, s: State, clock: int)
    requires UsableParams(r.p) && Sound(r, s, clock)
    ensures Framable(Branch(s.index, s.tip)) && Encoded(s) == Some(Saved(Branch(s.index, s.tip), 1))
  {
    hide UsableParams, Inv, Branch, Linked, Attached, HeaderFault, BlockBytes, PrefixReplays, GenesisEntry, BlockWork, Saved;
    var path := Branch(s.index, s.tip);
    MainPathGood(r, s, clock, clock);
    forall h | 0 < h < |path| ensures |BlockBytes(path[h].block)| <= MAX_BLOCK_BYTES {
      assert GoodNext(r, path, h, clock);
      FaultFacts(r, path[..h], path[h].block, clock, false);
    }
  }

  /** `decodeCanonicalSnapshot`: strict replay from genesis. */
  ghost function Decoded(r: Rules, data: seq<Byte>, now: int): Option<State>
    requires UsableParams(r.p)
  {
    GenesisLinked(r);
    LoadFrames(r, Genesis(r), data, now)
  }

  lemma {:induction false} GenesisLinked(r: Rules)
    ensures Linked(Genesis(r).index)
  {
    hide GenesisBlock, SpendAndCreate, BlockWork;
  }

  /** `readDurableSnapshotLocked`: a file that replays and whose chain encodes back to the very same bytes. */
  ghost function Loaded(r: Rules, data: seq<Byte>, now: int): Option<State>
    requires UsableParams(r.p)
  {
    match Decoded(r, data, now)
    case None => None
    case Some(v) => if Encoded(v) == Some(data) then Some(v) else None
  }

  /** `validateAndEncodeCanonicalSnapshot`: the candidate's bytes load back as the candidate. */
  ghost predicate SelfValid(r: Rules, s: State, data: seq<Byte>, now: int)
    requires UsableParams(r.p)
  {
    match Decoded(r, data, now)
    case None => false
    case Some(v) =>
      v.tip.id == s.tip.id && v.tip.height == s.tip.height && v.tip.cumWork == s.tip.cumWork && Encoded(v) == Some(data)
  }

  ghost predicate Candidate(r: Rules, s: State, now: int)
    requires UsableParams(r.p)
  {
    Encoded(s).Some? && SelfValid(r, s, Encoded(s).value, now)
  }

  // ---- what a loaded chain is ----

  /** A chain of blocks within wire bounds, seen by a clock not ahead of `now`, passes both checks: its bytes replay to the
      same main chain, tip, work and UTXO set with an empty mempool, and encode back to themselves. */
  lemma {:induction false} SavedChainLoads(r: Rules, s: State, clock: int, now: int)
    requires UsableParams(r.p) && Sound(r, s, clock) && clock <= now && AllStorable(Branch(s.index, s.tip))
    ensures Candidate(r, s, now)
    ensures Loaded(r, Encoded(s).value, now) == Some(State(PathIndex(Branch(s.index, s.tip)), s.tip, s.mainIds, s.utxo, map[]))
  {
    hide UsableParams, Inv, LoadFrames, Linked, Branch, Genesis, AllStorable, PathIndex, Attached, Saved, Framable, PathShape;
    var path := Branch(s.index, s.tip);
    SaveLoadRoundTrip(r, s, clock, now);
    SoundEncodes(r, s, clock);
    MainPathGood(r, s, clock, now);
    GoodPathShape(r, path, now);
    PathBranch(path, |path| - 1);
    assert path[..|path|] == path;
    LastOfBranch(s);
  }

  lemma {:induction false} LastOfBranch(s: State)
    requires Linked(s.index) && Attached(s.index, s.tip)
    ensures |Branch(s.index, s.tip)| > 0 && Branch(s.index, s.tip)[|Branch(s.index, s.tip)| - 1] == s.tip
  {
  }

  // ---- a later clock changes nothing ----

  lemma {:induction false} AcceptedLater(r: Rules, s: State, b: Block, now: int, later: int)
    requires UsableParams(r.p) && Linked(s.index) && now <= later && !AcceptBlock(r, s, b, now, false).1.Rejected?
    ensures AcceptBlock(r, s, b, later, false) == AcceptBlock(r, s, b, now, false)
  {
    hide UsableParams, HeaderFault, Replay, Branch, Blocks, Adopt, BlockWork;
    if r.env.headerId(b.header) !in s.index {
      FaultUnderLaterClock(r, Branch(s.index, s.index[b.header.prevBlock]), b, now, later, false);
    }
  }

  lemma {:induction false} LoadedLater(r: Rules, s: State, data: seq<Byte>, now: int, later: int)
    requires UsableParams(r.p) && Linked(s.index) && now <= later && LoadFrames(r, s, data, now).Some?
    ensures LoadFrames(r, s, data, later) == LoadFrames(r, s, data, now)
    decreases |data|
  {
    hide UsableParams, AcceptBlock, TakeFrame, Linked;
    if data != [] {
      var (b, rest) := TakeFrame(data).value;
      StepLinked(r, s, BlockArrives(b, now, false));
      AcceptedLater(r, s, b, now, later);
      LoadedLater(r, AcceptBlock(r, s, b, now, false).0, rest, now, later);
    }
  }

  // ---- saving, as a step on the file ----

  datatype SaveOutcome = Replaced | Unchanged | InvalidCandidate | Regression | EqualWorkOtherTip | Unreadable | ByteMismatch

  /** `saveSnapshot` on the file's contents, for any candidate at all. */
  ghost function Save(r: Rules, file: Option<seq<Byte>>, s: State, now: int): (Option<seq<Byte>>, SaveOutcome)
    requires UsableParams(r.p)
  {
    if !Candidate(r, s, now) then (file, InvalidCandidate)
    else
      var data := Encoded(s).value;
      if file.None? then (Some(data), Replaced)
      else
        match Loaded(r, file.value, now)
        case None => (file, Unreadable)
        case Some(current) =>
          if s.tip.cumWork < current.tip.cumWork then (file, Regression)
          else if s.tip.cumWork == current.tip.cumWork then
            (if s.tip.id != current.tip.id then (file, EqualWorkOtherTip)
             else if data != file.value then (file, ByteMismatch)
             else (file, Unchanged))
          else (Some(data), Replaced)
  }

  /** The file is absent or loads. */
  ghost predicate Durable(r: Rules, file: Option<seq<Byte>>, now: int)
    requires UsableParams(r.p)
  {
    file.Some? ==> Loaded(r, file.value, now).Some?
  }

  ghost function DurableWork(r: Rules, file: Option<seq<Byte>>, now: int): nat
    requires UsableParams(r.p)
  {
    if file.None? then 0
    else
      match Loaded(r, file.value, now)
      case None => 0
      case Some(current) => current.tip.cumWork
  }

  /** Whatever the candidate, a save leaves a loadable file loadable and never lowers its work. It replaces the file exactly
      when the candidate validates and is heavier, and refuses an equally heavy chain on another tip. */
  lemma {:induction false} SaveIsSafe(r: Rules, file: Option<seq<Byte>>, s: State, now: int)
    requires UsableParams(r.p) && Durable(r, file, now)
    ensures var (file', out) := Save(r, file, s, now);
            && Durable(r, file', now)
            && DurableWork(r, file', now) >= DurableWork(r, file, now)
            && (out == Replaced <==> Candidate(r, s, now) && (file.None? || s.tip.cumWork > DurableWork(r, file, now)))
            && (out == Replaced ==> file' == Encoded(s) && DurableWork(r, file', now) == s.tip.cumWork)
            && (out == Replaced ==>
                  var back := Loaded(r, file'.value, now);
                  back.Some? && back.value.tip.id == s.tip.id && back.value.tip.height == s.tip.height)
            && (out != Replaced ==> file' == file)
            && (out == InvalidCandidate <==> !Candidate(r, s, now))
            && (out == Regression <==> Candidate(r, s, now) && file.Some? && s.tip.cumWork < DurableWork(r, file, now))
            && (out == Unchanged <==>
                  Candidate(r, s, now) && file.Some? && s.tip.cumWork == DurableWork(r, file, now)
                  && Loaded(r, file.value, now).value.tip.id == s.tip.id && file == Encoded(s))
            && (out == EqualWorkOtherTip <==>
                  Candidate(r, s, now) && file.Some? && s.tip.cumWork == DurableWork(r, file, now)
                  && Loaded(r, file.value, now).value.tip.id != s.tip.id)
            && out != Unreadable
  {
    hide UsableParams, Decoded, Encoded;
  }

  lemma {:induction false} FramesSound(r: Rules, s: State, data: seq<Byte>, now: int)
    requires UsableParams(r.p) && Inv(r, s, now) && Linked(s.index) && LoadFrames(r, s, data, now).Some?
    ensures Inv(r, LoadFrames(r, s, data, now).value, now)
    ensures s.mempool == map[] ==> LoadFrames(r, s, data, now).value.mempool == map[]
    decreases |data|
  {
    hide UsableParams, Inv, AcceptBlock, TakeFrame;
    if data != [] {
      var (b, rest) := TakeFrame(data).value;
      AcceptBlockInv(r, s, b, now, false, now);
      StepLinked(r, s, BlockArrives(b, now, false));
      if s.mempool == map[] {
        StaysEmpty(r, s, b, now);
      }
      FramesSound(r, AcceptBlock(r, s, b, now, false).0, rest, now);
    }
  }

  lemma {:induction false} StaysEmpty(r: Rules, s: State, b: Block, now: int)
    requires UsableParams(r.p) && Linked(s.index) && s.mempool == map[]
    ensures AcceptBlock(r, s, b, now, false).0.mempool == map[]
  {
    hide UsableParams, HeaderFault, Replay, Evict, Branch, Ids, Blocks, BlockWork;
    forall utxo, height ensures Evict(r, map[], utxo, height) == map[] {
      EmptyEvict(r, utxo, height);
    }
  }

  /** A file that loads gives a chain that satisfies every rule of acceptance but the proof of work, whose main chain encodes to
      exactly the file's bytes, with nothing in its mempool. */
  lemma {:induction false} LoadedIsSound(r: Rules, data: seq<Byte>, now: int)
    requires UsableParams(r.p) && Loaded(r, data, now).Some?
    ensures var v := Loaded(r, data, now).value;
            && Sound(r, v, now) && Encoded(v) == Some(data) && v.mempool == map[]
  {
    hide UsableParams, Inv, LoadFrames, Encoded, Genesis;
    GenesisLinked(r);
    GenesisInv(r, now);
    GenesisPool(r);
    FramesSound(r, Genesis(r), data, now);
    InvSound(r, Loaded(r, data, now).value, now);
  }

  lemma {:induction false} GenesisPool(r: Rules)
    ensures Genesis(r).mempool == map[]
  {
    hide GenesisEntry, SpendAndCreate;
  }

  // ---- interleaved saves ----

  /** One save: which chain, and the wall clock of the save. */
  datatype SaveEvent = SaveEvent(s: State, now: int)

  ghost predicate ClockAdvances(saves: seq<SaveEvent>) {
    forall i, j :: 0 <= i < j < |saves| ==> saves[i].now <= saves[j].now
  }

  ghost function FileAfter(r: Rules, saves: seq<SaveEvent>): Option<seq<Byte>>
    requires UsableParams(r.p)
  {
    if saves == [] then None
    else
      var last := saves[|saves| - 1];
      Save(r, FileAfter(r, saves[..|saves| - 1]), last.s, last.now).0
  }

  lemma {:induction false} DurableLater(r: Rules, file: Option<seq<Byte>>, now: int, later: int)
    requires UsableParams(r.p) && Durable(r, file, now) && now <= later
    ensures Durable(r, file, later) && DurableWork(r, file, later) == DurableWork(r, file, now)
  {
    hide UsableParams, LoadFrames, Encoded, Genesis;
    if file.Some? {
      GenesisLinked(r);
      LoadedLater(r, Genesis(r), file.value, now, later);
    }
  }

  lemma {:induction false} FileAlwaysDurable(r: Rules, saves: seq<SaveEvent>, now: int)
    requires UsableParams(r.p) && ClockAdvances(saves)
    requires forall i :: 0 <= i < |saves| ==> saves[i].now <= now
    ensures Durable(r, FileAfter(r, saves), now)
  {
    hide UsableParams, Loaded, Save;
    if saves != [] {
      hide Durable;
      var last := saves[|saves| - 1];
      FileAlwaysDurable(r, saves[..|saves| - 1], last.now);
      SaveIsSafe(r, FileAfter(r, saves[..|saves| - 1]), last.s, last.now);
      DurableLater(r, FileAfter(r, saves), last.now, now);
    }
  }

  /** However saves by any number of chains interleave, the work on disk never goes down. */
  lemma {:induction false} DurableWorkNeverDecreases(r: Rules, saves: seq<SaveEvent>, k: nat, now: int)
    requires UsableParams(r.p) && ClockAdvances(saves) && k <= |saves|
    requires forall i :: 0 <= i < |saves| ==> saves[i].now <= now
    ensures DurableWork(r, FileAfter(r, saves[..k]), now) <= DurableWork(r, FileAfter(r, saves), now)
  {
    hide UsableParams, Durable, Save, DurableWork;
    if k == |saves| {
      assert saves[..k] == saves;
    } else {
      var prior, last := saves[..|saves| - 1], saves[|saves| - 1];
      DurableWorkNeverDecreases(r, prior, k, now);
      assert prior[..k] == saves[..k];
      FileAlwaysDurable(r, prior, last.now);
      SaveIsSafe(r, FileAfter(r, prior), last.s, last.now);
      DurableLater(r, FileAfter(r, prior), last.now, now);
      DurableLater(r, FileAfter(r, saves), last.now, now);
    }
  }

  // ---- the store object ----

  class FileStore {
    const rules: Rules
    var file: Option<seq<Byte>>

    constructor (rules: Rules)
      ensures this.rules == rules && file == None
    {
      this.rules := rules;
      file := None;
    }

    /** `encodeCanonicalSnapshot`: walk the validated main chain and append one frame per block. */
    method Encode(c: Chain, ghost clock: int) returns (data: seq<Byte>)
      requires c.rules == rules && UsableParams(rules.p) && Sound(rules, c.Abs(), clock)
      ensures Encoded(c.Abs()) == Some(data)
    {
      hide UsableParams, Inv, Branch, Linked, Attached, Frame, BlockBytes, Framable, Encoded;
      SoundEncodes(rules, c.Abs(), clock);
      var sequence := c.ValidatedCanonicalSequence(clock);
      var path := sequence.value;
      data := [];
      var h := 1;
      while h < |path|
        invariant 1 <= h <= |path|
        invariant data + Saved(path, h) == Saved(path, 1)
      {
        FramableAt(path, h);
        SavedStep(path, h);
        data := data + Frame(path[h].block);
        h := h + 1;
      }
      assert Blocks(path)[h..] == [];
      assert data + [] == data;
    }

    /** `decodeCanonicalSnapshot`: replay the file on a scratch chain, without the proof-of-work check. */
    method Decode(data: seq<Byte>, now: int) returns (scratch: Chain?)
      requires UsableParams(rules.p)
      ensures scratch == null <==> Decoded(rules, data, now).None?
      ensures scratch != null ==> fresh(scratch) && scratch.rules == rules && Decoded(rules, data, now) == Some(scratch.Abs())
      ensures scratch != null ==> Sound(rules, scratch.Abs(), now)
    {
      hide UsableParams, Inv, AcceptBlock, TakeFrame, Genesis;
      var c := new Chain.AtGenesis(rules);
      GenesisInv(rules, now);
      GenesisLinked(rules);
      var rest := data;
      while rest != []
        invariant fresh(c) && c.rules == rules && Inv(rules, c.Abs(), now) && Linked(c.index)
        invariant LoadFrames(rules, c.Abs(), rest, now) == Decoded(rules, data, now)
        decreases |rest|
      {
        var frame := TakeFrame(rest);
        if frame.None? {
          return null;
        }
        var (b, tail) := frame.value;
        StepLinked(rules, c.Abs(), BlockArrives(b, now, false));
        var height := c.tip.height;
        var out := c.AcceptBlock(b, now, false, now);
        if out.Rejected? {
          return null;
        }
        if c.tip.height != height + 1 || c.tip.id != rules.env.headerId(b.header) {
          return null;
        }
        rest := tail;
      }
      InvSound(rules, c.Abs(), now);
      scratch := c;
    }

    /** `readDurableSnapshotLocked`: decode, encode again, and compare the bytes. */
    method Read(data: seq<Byte>, now: int) returns (scratch: Chain?)
      requires UsableParams(rules.p)
      ensures scratch == null <==> Loaded(rules, data, now).None?
      ensures scratch != null ==> fresh(scratch) && Loaded(rules, data, now) == Some(scratch.Abs())
    {
      hide UsableParams, Decoded, Encoded, Sound;
      scratch := Decode(data, now);
      if scratch == null {
        return;
      }
      var canonical := Encode(scratch, now);
      if canonical != data {
        scratch := null;
      }
    }

    /** `validateAndEncodeCanonicalSnapshot`. */
    method Validate(c: Chain, ghost clock: int, now: int) returns (res: Option<seq<Byte>>)
      requires c.rules == rules && UsableParams(rules.p) && Sound(rules, c.Abs(), clock)
      ensures res == if Candidate(rules, c.Abs(), now) then Encoded(c.Abs()) else None
    {
      hide UsableParams, Decoded, Encoded, Sound;
      ghost var s := c.Abs();
      var data := Encode(c, clock);
      var validated := Decode(data, now);
      if validated == null {
        return None;
      }
      assert c.Abs() == s;
      if validated.tip.id != c.tip.id || validated.tip.height != c.tip.height || validated.tip.cumWork != c.tip.cumWork {
        return None;
      }
      var canonical := Encode(validated, now);
      if canonical != data {
        return None;
      }
      return Some(data);
    }

    method SaveSnapshot(c: Chain, ghost clock: int, now: int) returns (out: SaveOutcome)
      requires c.rules == rules && UsableParams(rules.p) && Sound(rules, c.Abs(), clock)
      modifies this`file
      ensures (file, out) == Save(rules, old(file), c.Abs(), now)
    {
      hide UsableParams, Loaded, Encoded, Candidate, Sound;
      ghost var s := c.Abs();
      CandidateEncodes(rules, s, now);
      var candidate := Validate(c, clock, now);
      assert c.Abs() == s;
      if candidate.None? {
        return InvalidCandidate;
      }
      var data := candidate.value;
      if file.None? {
        file := Some(data);
        return Replaced;
      }
      var current := Read(file.value, now);
      assert c.Abs() == s;
      if current == null {
        return Unreadable;
      }
      if c.tip.cumWork < current.tip.cumWork {
        return Regression;
      }
      if c.tip.cumWork == current.tip.cumWork {
        if c.tip.id != current.tip.id {
          return EqualWorkOtherTip;
        }
        if data != file.value {
          return ByteMismatch;
        }
        return Unchanged;
      }
      file := Some(data);
      out := Replaced;
    }

    /** `LoadInto`: an empty genesis chain takes over the replayed state whole; any other destination and
        any unreadable or non-canonical file leave it as it was. */
    method LoadInto(c: Chain, now: int) returns (ok: bool)
      requires c.rules == rules && UsableParams(rules.p)
      modifies c
      ensures ok <==> old(c.Abs()) == Genesis(rules) && (file.Some? ==> Loaded(rules, file.value, now).Some?)
      ensures c.Abs() == if file.Some? && ok then Loaded(rules, file.value, now).value.(mempool := map[]) else old(c.Abs())
    {
      hide UsableParams, Loaded, Genesis, Inv;
      var empty := Genesis(rules);
      if c.index != empty.index || c.tip != empty.tip || c.mainIds != empty.mainIds || c.utxo != empty.utxo
         || c.mempool != empty.mempool {
        return false;
      }
      if file.None? {
        return true;
      }
      var scratch := Read(file.value, now);
      if scratch == null {
        return false;
      }
      c.index := scratch.index;
      c.tip := scratch.tip;
      c.mainIds := scratch.mainIds;
      c.utxo := scratch.utxo;
      c.mempool := map[];
      ok := true;
    }
  }

  lemma {:induction false} CandidateEncodes(r: Rules, s: State, now: int)
    requires UsableParams(r.p)
    ensures Candidate(r, s, now) ==> Encoded(s).Some?
  {
    hide UsableParams, Encoded;
  }

  lemma {:induction false} FramableAt(path: seq<Indexed>, h: nat)
    requires Framable(path) && 0 < h < |path|
    ensures |BlockBytes(path[h].block)| <= MAX_BLOCK_BYTES
  {
    hide BlockBytes;
  }

  lemma {:induction false} InvSound(r: Rules, s: State, clock: int)
    requires UsableParams(r.p) && Inv(r, s, clock)
    ensures Sound(r, s, clock)
  {
    hide UsableParams, MempoolOk, EntryOk, Branch, Replay;
    InvParts(r, s, clock);
    BranchFromGenesis(r, s.index, s.tip, clock);
  }
}
