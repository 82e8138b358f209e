/** The book replay (docker/lake/books.py): one walk over a partition's frames, one book row per elapsed second. */
module Replay {
  import opened Prelude
  import opened Digits
  import opened Decimal
  import opened Ladders
  import opened LakeBook

  const NS := 1_000_000_000
  const TOP := 20
  const KRAKEN_DEPTH := 25
  const CHECKSUM_LEVELS := 10
  const STATE_LEVELS := 1_000_000

  /** Decimal places of a price or a quantity, within the 1e-8 scale. */
  type Precision = p: nat | p <= SCALE_DP witness 0

  // ---- the checksum over the top of a book ----

  /** `checksum_digits`, with Python's floor division. */
  function SignedDigits(units: int, precision: Precision): string {
    if units >= 0 then ChecksumDigits(units, precision)
    else "-" + ToString(-(units / Pow10(SCALE_DP - precision)))
  }

  function LevelText(level: Level, pricePrecision: Precision, qtyPrecision: Precision): string
  {
    SignedDigits(level.0, pricePrecision) + SignedDigits(level.1, qtyPrecision)
  }

  /** The texts of the first `n` levels, one after the other. */
  function Joined(text: Level -> string, levels: seq<Level>, n: nat): string
    requires n <= |levels|
  {
    if n == 0 then "" else Joined(text, levels, n - 1) + text(levels[n - 1])
  }

  function SideText(levels: seq<Level>, n: nat, pricePrecision: Precision, qtyPrecision: Precision): string
    requires n <= |levels|
  {
    Joined((l: Level) => LevelText(l, pricePrecision, qtyPrecision), levels, n)
  }

  /** The top ten asks, then the top ten bids. */
  function ChecksumText(asks: seq<Level>, bids: seq<Level>, pricePrecision: Precision, qtyPrecision: Precision): string
  {
    SideText(asks, Min(|asks|, CHECKSUM_LEVELS), pricePrecision, qtyPrecision)
    + SideText(bids, Min(|bids|, CHECKSUM_LEVELS), pricePrecision, qtyPrecision)
  }

  method SideParts(levels: seq<Level>, pricePrecision: Precision, qtyPrecision: Precision) returns (text: string)
    ensures text == SideText(levels, Min(|levels|, CHECKSUM_LEVELS), pricePrecision, qtyPrecision)
  {
    text := "";
    var part := (l: Level) => LevelText(l, pricePrecision, qtyPrecision);
    for i := 0 to Min(|levels|, CHECKSUM_LEVELS)
      invariant text == Joined(part, levels, i)
    {
      text := text + part(levels[i]);
    }
  }

  // ---- frames in, rows out ----

  type Key = (string, string)

  datatype Update = Update(side: Side, px: int, qty: int)

  datatype Body =
    | KrakenBody(snapshot: bool, bids: seq<Level>, asks: seq<Level>, checksum: int)
    | CoinbaseBody(snapshot: bool, updates: seq<Update>, sequenceNum: int)

  datatype Lineage = Lineage(partition: int, offset: int, index: int)

  datatype Frame = Frame(
    symbol: string, canonical: string, connId: string, recvNs: int, connMsgSeq: int, topic: string, src: Lineage,
    body: Body)
  {
    function Key(): Key { (symbol, connId) }
  }

  /** What a row says beside its levels; `run_ts` is left out. */
  datatype Stamp = Stamp(
    symbol: string, canonical: string, connId: string, topic: string,
    seqNum: int, checksumOk: Option<bool>, recvNs: int, connMsgSeq: int, src: Lineage)

  datatype BookRow = BookRow(second: int, bids: seq<Level>, asks: seq<Level>, depth: nat, stamp: Stamp)

  /** The carry-over row of `gold.book_state`. */
  datatype StateRow = StateRow(
    symbol: string, connId: string, bids: seq<Level>, asks: seq<Level>, seqNum: int, checksumOk: Option<bool>,
    lastConnMsgSeq: int, lastRecvNs: int, lastSecond: int, lastSrc: Lineage)

  datatype Out =
    | Verdict(src: Lineage, ok: Option<bool>)
    | Book(row: BookRow)
    | Carry(state: StateRow)

  /** What a run is given beside its frames. */
  datatype Env = Env(precisions: map<string, (Precision, Precision)>, states: map<Key, StateRow>, crc: string -> int)

  /** The running state of one connection: the stamp, and how far seconds have been emitted. */
  datatype Running = Running(live: bool, stamp: Stamp, lastSecondNs: Option<int>, firstNs: Option<int>)

  datatype Machine = Machine(book: BookValue, st: Running)

  // ---- one connection ----

  function FloorSecond(ns: int): int {
    (ns / NS) * NS
  }

  ghost function SnapshotRow(m: Machine, secondNs: int): Out {
    var bids, asks := TopLevels(Bid, m.book.bids, TOP), TopLevels(Ask, m.book.asks, TOP);
    Book(BookRow(secondNs / NS, bids, asks, Max(|bids|, |asks|), m.st.stamp))
  }

  /** `state_row()`, which needs a second to have been recorded and raises otherwise. */
  ghost function CarryRow(m: Machine): Option<StateRow> {
    if m.st.lastSecondNs.None? then None else
      var s := m.st.stamp;
      Some(StateRow(s.symbol, s.connId,
                    TopLevels(Bid, m.book.bids, STATE_LEVELS), TopLevels(Ask, m.book.asks, STATE_LEVELS),
                    s.seqNum, s.checksumOk, s.connMsgSeq, s.recvNs, m.st.lastSecondNs.value / NS, s.src))
  }

  /** The first second not yet emitted. */
  function NextSecond(st: Running): int {
    if st.lastSecondNs.Some? then st.lastSecondNs.value + NS
    else FloorSecond(if st.firstNs.Some? then st.firstNs.value else 0)
  }

  ghost function RowsFrom(m: Machine, sec: int, boundary: int): seq<Out>
    decreases boundary - sec
  {
    if sec < boundary then [SnapshotRow(m, sec)] + RowsFrom(m, sec + NS, boundary) else []
  }

  /** Where the `while sec < boundary` loop leaves `sec`. */
  function SecondAfter(sec: int, boundary: int): int
    decreases boundary - sec
  {
    if sec < boundary then SecondAfter(sec + NS, boundary) else sec
  }

  function Flushed(st: Running, uptoNs: int): Running {
    if !st.live then st else
      var sec := SecondAfter(NextSecond(st), FloorSecond(uptoNs));
      if sec - NS < 0 then st
      else st.(lastSecondNs := Some(Max(if st.lastSecondNs.Some? then st.lastSecondNs.value else 0, sec - NS)))
  }

  ghost function FlushRows(m: Machine, uptoNs: int): seq<Out> {
    if !m.st.live then [] else RowsFrom(m, NextSecond(m.st), FloorSecond(uptoNs))
  }

  ghost function UpdatedBook(v: BookValue, updates: seq<Update>, n: nat): BookValue
    requires n <= |updates|
  {
    if n == 0 then v else
      var before, u := UpdatedBook(v, updates, n - 1), updates[n - 1];
      if u.side.Bid? then before.(bids := ApplyLevel(before.bids, u.px, u.qty))
      else before.(asks := ApplyLevel(before.asks, u.px, u.qty))
  }

  ghost function ApplyBody(v: BookValue, body: Body): BookValue {
    match body
    case KrakenBody(snapshot, bids, asks, _) => KrakenValue(v, snapshot, bids, asks, KRAKEN_DEPTH)
    case CoinbaseBody(snapshot, updates, _) => UpdatedBook(if snapshot then EMPTY else v, updates, |updates|)
  }

  /** The checksum verdict over a book, if the pair's precisions are known. */
  ghost function Judge(env: Env, symbol: string, v: BookValue, checksum: int): Option<bool>
  {
    if symbol !in env.precisions then None else
      var (pp, qp) := env.precisions[symbol];
      var asks, bids := TopLevels(Ask, v.asks, CHECKSUM_LEVELS), TopLevels(Bid, v.bids, CHECKSUM_LEVELS);
      Some(env.crc(ChecksumText(asks, bids, pp, qp)) == checksum)
  }

  /** Before its first snapshot a connection has no book: the frame changes nothing. */
  predicate Ignored(st: Running, f: Frame) {
    !st.live && !f.body.snapshot
  }

  ghost function StampAfter(env: Env, m: Machine, f: Frame): Stamp
  {
    var s := m.st.stamp.(recvNs := f.recvNs, connMsgSeq := f.connMsgSeq, src := f.src);
    match f.body
    case KrakenBody(_, _, _, checksum) => s.(checksumOk := Judge(env, f.symbol, ApplyBody(m.book, f.body), checksum))
    case CoinbaseBody(_, _, sequenceNum) => s.(seqNum := sequenceNum)
  }

  /** What the frame itself does, once the seconds before it are out. */
  ghost function Absorb(env: Env, m: Machine, f: Frame): Machine
  {
    if Ignored(m.st, f) then m else
      Machine(ApplyBody(m.book, f.body),
              Running(true, StampAfter(env, m, f), m.st.lastSecondNs,
                      if m.st.live then m.st.firstNs else Some(f.recvNs)))
  }

  ghost function Verdicts(env: Env, m: Machine, f: Frame): seq<Out>
  {
    match f.body
    case KrakenBody(_, _, _, checksum) =>
      [Verdict(f.src, if Ignored(m.st, f) then None else Judge(env, f.symbol, ApplyBody(m.book, f.body), checksum))]
    case CoinbaseBody(_, _, _) => []
  }

  ghost function Flush(m: Machine, uptoNs: int): Machine {
    m.(st := Flushed(m.st, uptoNs))
  }

  ghost function Step(env: Env, m: Machine, f: Frame): Machine
  {
    Absorb(env, Flush(m, f.recvNs), f)
  }

  ghost function StepOut(env: Env, m: Machine, f: Frame): seq<Out>
  {
    FlushRows(m, f.recvNs) + Verdicts(env, Flush(m, f.recvNs), f)
  }

  /** `_state_from_row`'s dictionaries. */
  function LadderOf(levels: seq<Level>, n: nat): Ladder
    requires n <= |levels|
  {
    if n == 0 then map[] else LadderOf(levels, n - 1)[levels[n - 1].0 := levels[n - 1].1]
  }

  /** How a connection starts in this run: from its carried state, or from nothing. */
  function Begin(env: Env, f: Frame): Machine {
    if f.Key() in env.states then
      var r := env.states[f.Key()];
      Machine(BookValue(LadderOf(r.bids, |r.bids|), LadderOf(r.asks, |r.asks|)),
              Running(true,
                      Stamp(f.symbol, f.canonical, f.connId, f.topic, r.seqNum, r.checksumOk, r.lastRecvNs,
                            r.lastConnMsgSeq, r.lastSrc),
                      Some(r.lastSecond * NS), None))
    else
      Machine(EMPTY,
              Running(false, Stamp(f.symbol, f.canonical, f.connId, f.topic, 0, None, 0, 0, Lineage(0, 0, 0)),
                      None, None))
  }

  // ---- a partition ----

  /** The generator: the connection being walked, what it has yielded, and whether it has raised. */
  datatype Walk = Walk(current: Option<Machine>, outs: seq<Out>, raised: bool)

  /** Leaving a connection: a live one yields its carry-over. */
  ghost function Leave(w: Walk): Walk {
    if w.current.None? || !w.current.value.st.live then w
    else match CarryRow(w.current.value)
      case None => w.(raised := true)
      case Some(row) => w.(outs := w.outs + [Carry(row)])
  }

  function MachineKey(m: Machine): Key {
    (m.st.stamp.symbol, m.st.stamp.connId)
  }

  ghost function Enter(env: Env, w: Walk, f: Frame): Walk {
    if w.current.Some? && MachineKey(w.current.value) == f.Key() then w
    else Leave(w).(current := Some(Begin(env, f)))
  }

  ghost function AdvanceOn(env: Env, w: Walk, f: Frame): Walk
  {
    if w.raised || w.current.None? then w else
      var m := w.current.value;
      w.(current := Some(Step(env, m, f)), outs := w.outs + StepOut(env, m, f))
  }

  ghost function Turn(env: Env, w: Walk, f: Frame): Walk {
    if w.raised then w else AdvanceOn(env, Enter(env, w, f), f)
  }

  ghost function Turner(env: Env): (Walk, Frame) -> Walk {
    (w, f) => Turn(env, w, f)
  }

  ghost function WalkTo(env: Env, rows: seq<Frame>, n: nat): Walk
    requires n <= |rows|
  {
    FoldTo(Turner(env), Walk(None, [], false), rows, n)
  }

  /** The end of the partition: the seconds before the last frame's, then the carry-over. */
  ghost function Finish(w: Walk): Walk {
    if w.raised || w.current.None? || !w.current.value.st.live then w else
      var m := w.current.value;
      var upto := m.st.stamp.recvNs;
      Leave(Walk(Some(Flush(m, upto)), w.outs + FlushRows(m, upto), false))
  }

  ghost function ReplayOf(env: Env, rows: seq<Frame>): Walk
  {
    Finish(WalkTo(env, rows, |rows|))
  }

  // ---- the walk as the program performs it ----

  method KrakenChecksum(asks: seq<Level>, bids: seq<Level>, pricePrecision: Precision, qtyPrecision: Precision,
                        crc: string -> int)
    returns (sum: int)
    ensures sum == crc(ChecksumText(asks, bids, pricePrecision, qtyPrecision))
  {
    var askParts := SideParts(asks, pricePrecision, qtyPrecision);
    var bidParts := SideParts(bids, pricePrecision, qtyPrecision);
    sum := crc(askParts + bidParts);
  }

  method FillSide(levels: seq<Level>) returns (m: Ladder)
    ensures m == LadderOf(levels, |levels|)
  {
    m := map[];
    for i := 0 to |levels|
      invariant m == LadderOf(levels, i)
    {
      m := m[levels[i].0 := levels[i].1];
    }
  }

  method StateFromRow(r: StateRow) returns (book: LakeBook.Book)
    ensures fresh(book)
    ensures book.Value() == BookValue(LadderOf(r.bids, |r.bids|), LadderOf(r.asks, |r.asks|))
  {
    book := new LakeBook.Book();
    book.bids := FillSide(r.bids);
    book.asks := FillSide(r.asks);
  }

  method SnapshotOf(book: LakeBook.Book, st: Running, secondNs: int) returns (out: Out)
    ensures out == SnapshotRow(Machine(book.Value(), st), secondNs)
  {
    var bids, asks := book.Top(TOP);
    out := Out.Book(BookRow(secondNs / NS, bids, asks, Max(|bids|, |asks|), st.stamp));
  }

  method CarryOf(book: LakeBook.Book, st: Running) returns (row: Option<StateRow>)
    ensures row == CarryRow(Machine(book.Value(), st))
  {
    if st.lastSecondNs.None? {
      return None;
    }
    var bids, asks := book.Top(STATE_LEVELS);
    var s := st.stamp;
    row := Some(StateRow(s.symbol, s.connId, bids, asks, s.seqNum, s.checksumOk, s.connMsgSeq, s.recvNs,
                         st.lastSecondNs.value / NS, s.src));
  }

  /** Every whole second from the last emitted one up to, not including, the one containing `uptoNs`. */
  method FlushSeconds(book: LakeBook.Book, st: Running, uptoNs: int) returns (st': Running, rows: seq<Out>)
    ensures st' == Flushed(st, uptoNs) && rows == FlushRows(Machine(book.Value(), st), uptoNs)
  {
    st', rows := st, [];
    if !st.live {
      return;
    }
    var boundary := FloorSecond(uptoNs);
    var sec := NextSecond(st);
    ghost var m := Machine(book.Value(), st);
    ghost var start := sec;
    while sec < boundary
      invariant SecondAfter(sec, boundary) == SecondAfter(start, boundary)
      invariant rows + RowsFrom(m, sec, boundary) == RowsFrom(m, start, boundary)
      decreases boundary - sec
    {
      var row := SnapshotOf(book, st, sec);
      rows, sec := rows + [row], sec + NS;
    }
    if sec - NS >= 0 {
      var last := if st.lastSecondNs.Some? then st.lastSecondNs.value else 0;
      st' := st.(lastSecondNs := Some(Max(last, sec - NS)));
    }
  }

  method ApplyUpdates(book: LakeBook.Book, updates: seq<Update>)
    modifies book
    ensures book.Value() == UpdatedBook(old(book.Value()), updates, |updates|)
  {
    for i := 0 to |updates|
      invariant book.Value() == UpdatedBook(old(book.Value()), updates, i)
    {
      book.Apply(updates[i].side, updates[i].px, updates[i].qty);
    }
  }

  /** Fold one frame into the book and judge it. */
  method AbsorbFrame(env: Env, book: LakeBook.Book, st: Running, f: Frame) returns (st': Running, outs: seq<Out>)
    modifies book
    ensures Machine(book.Value(), st') == Absorb(env, old(Machine(book.Value(), st)), f)
    ensures outs == Verdicts(env, old(Machine(book.Value(), st)), f)
  {
    st', outs := st, [];
    match f.body {
      case KrakenBody(snapshot, bids, asks, checksum) =>
        if !st.live && !snapshot {
          outs := [Verdict(f.src, None)];
          return;
        }
        KrakenApply(book, snapshot, bids, asks, KRAKEN_DEPTH);
        var ok: Option<bool> := None;
        if f.symbol in env.precisions {
          var (pp, qp) := env.precisions[f.symbol];
          var topBids, topAsks := book.Top(CHECKSUM_LEVELS);
          var sum := KrakenChecksum(topAsks, topBids, pp, qp, env.crc);
          ok := Some(sum == checksum);
        }
        st' := st'.(stamp := st'.stamp.(checksumOk := ok));
        outs := [Verdict(f.src, ok)];
      case CoinbaseBody(snapshot, updates, sequenceNum) =>
        if !st.live && !snapshot {
          return;
        }
        if snapshot {
          book.Clear();
        }
        ApplyUpdates(book, updates);
        st' := st'.(stamp := st'.stamp.(seqNum := sequenceNum));
    }
    if !st'.live {
      st' := st'.(live := true, firstNs := Some(f.recvNs));
    }
    st' := st'.(stamp := st'.stamp.(recvNs := f.recvNs, connMsgSeq := f.connMsgSeq, src := f.src));
  }

  method BeginConnection(env: Env, f: Frame) returns (book: LakeBook.Book, st: Running)
    ensures fresh(book) && Machine(book.Value(), st) == Begin(env, f)
  {
    if f.Key() in env.states {
      var r := env.states[f.Key()];
      book := StateFromRow(r);
      st := Running(true,
                    Stamp(f.symbol, f.canonical, f.connId, f.topic, r.seqNum, r.checksumOk, r.lastRecvNs,
                          r.lastConnMsgSeq, r.lastSrc),
                    Some(r.lastSecond * NS), None);
    } else {
      book := new LakeBook.Book();
      st := Running(false, Stamp(f.symbol, f.canonical, f.connId, f.topic, 0, None, 0, 0, Lineage(0, 0, 0)),
                    None, None);
    }
  }

  /** The seconds decided before this frame, then the frame. */
  method AdvanceFrame(env: Env, book: LakeBook.Book, st: Running, f: Frame) returns (st': Running, outs: seq<Out>)
    modifies book
    ensures Machine(book.Value(), st') == Step(env, old(Machine(book.Value(), st)), f)
    ensures outs == StepOut(env, old(Machine(book.Value(), st)), f)
  {
    var flushed, seconds := FlushSeconds(book, st, f.recvNs);
    var verdicts;
    st', verdicts := AbsorbFrame(env, book, flushed, f);
    outs := seconds + verdicts;
  }

  /** `("state", state_row())`, or the exception it raises. */
  method Depart(book: LakeBook.Book, st: Running, ghost outs: seq<Out>) returns (carried: seq<Out>, raised: bool)
    ensures var w := Leave(Walk(Some(Machine(book.Value(), st)), outs, false));
            w.outs == outs + carried && w.raised == raised
  {
    carried, raised := [], false;
    if st.live {
      var row := CarryOf(book, st);
      if row.None? {
        raised := true;
      } else {
        carried := [Carry(row.value)];
      }
    }
  }

  ghost predicate Holds(w: Walk, current: Option<Key>, book: BookValue, st: Running, outs: seq<Out>) {
    && w == Walk(if current.None? then None else Some(Machine(book, st)), outs, false)
    && (current.Some? ==> current.value == MachineKey(Machine(book, st)))
  }

  lemma {:induction false} StepKeepsKey(env: Env, m: Machine, f: Frame)
    ensures MachineKey(Step(env, m, f)) == MachineKey(m)
  {}

  lemma {:induction false} EnterNew(env: Env, w: Walk, current: Option<Key>, book: BookValue, st: Running,
                                    outs: seq<Out>, f: Frame)
    requires Holds(w, current, book, st, outs) && current != Some(f.Key()) && (current.None? || !Leave(w).raised)
    ensures Holds(Enter(env, w, f), Some(f.Key()), Begin(env, f).book, Begin(env, f).st,
                  if current.None? then outs else Leave(w).outs)
  {}

  lemma {:induction false} WalkStep(env: Env, rows: seq<Frame>, i: nat)
    requires i < |rows|
    ensures WalkTo(env, rows, i + 1) == Turn(env, WalkTo(env, rows, i), rows[i])
  {}

  lemma {:induction false} AdvanceHolds(env: Env, rows: seq<Frame>, i: nat, book: BookValue, st: Running,
                                        outs: seq<Out>)
    requires i < |rows| && !WalkTo(env, rows, i).raised
    requires Holds(Enter(env, WalkTo(env, rows, i), rows[i]), Some(rows[i].Key()), book, st, outs)
    ensures var m := Step(env, Machine(book, st), rows[i]);
            Holds(WalkTo(env, rows, i + 1), Some(rows[i].Key()), m.book, m.st,
                  outs + StepOut(env, Machine(book, st), rows[i]))
  {
    WalkStep(env, rows, i);
    StepKeepsKey(env, Machine(book, st), rows[i]);
  }

  lemma {:induction false} RaisedOnEntry(env: Env, rows: seq<Frame>, i: nat)
    requires i < |rows| && !WalkTo(env, rows, i).raised && Enter(env, WalkTo(env, rows, i), rows[i]).raised
    ensures WalkTo(env, rows, |rows|) == Enter(env, WalkTo(env, rows, i), rows[i])
  {
    WalkStep(env, rows, i);
    RaisedStays(env, rows, i + 1, |rows|);
  }

  lemma {:induction false} RaisedStays(env: Env, rows: seq<Frame>, i: nat, n: nat)
    requires i <= n <= |rows| && WalkTo(env, rows, i).raised
    ensures WalkTo(env, rows, n) == WalkTo(env, rows, i)
    decreases n
  {
    if i < n { RaisedStays(env, rows, i, n - 1); }
  }

  /** A frame of another connection: leave the one being walked, begin its own. */
  method Switch(env: Env, book: LakeBook.Book, st: Running, current: Option<Key>, outs: seq<Out>, f: Frame,
                ghost w: Walk)
    returns (book': LakeBook.Book, st': Running, outs': seq<Out>, raised: bool)
    requires Holds(w, current, book.Value(), st, outs) && current != Some(f.Key())
    ensures raised ==> Enter(env, w, f).raised && outs' == Enter(env, w, f).outs
    ensures !raised ==> fresh(book') && Holds(Enter(env, w, f), Some(f.Key()), book'.Value(), st', outs')
  {
    book', st', outs', raised := book, st, outs, false;
    if current.Some? {
      var carried;
      carried, raised := Depart(book, st, outs);
      outs' := outs + carried;
      if raised {
        return;
      }
    }
    EnterNew(env, w, current, book.Value(), st, outs, f);
    book', st' := BeginConnection(env, f);
  }

  method Close(book: LakeBook.Book, st: Running, outs: seq<Out>, ghost w: Walk) returns (outs': seq<Out>, raised: bool)
    requires w == Walk(Some(Machine(book.Value(), st)), outs, false)
    ensures outs' == Finish(w).outs && raised == Finish(w).raised
  {
    outs', raised := outs, false;
    if st.live {
      var flushed, seconds := FlushSeconds(book, st, st.stamp.recvNs);
      outs' := outs + seconds;
      var carried;
      carried, raised := Depart(book, flushed, outs');
      outs' := outs' + carried;
    }
  }

  /** One frame of the loop, whichever connection it belongs to. */
  method VisitFrame(env: Env, rows: seq<Frame>, i: nat, book: LakeBook.Book, st: Running, current: Option<Key>,
                    outs: seq<Out>)
    returns (book': LakeBook.Book, st': Running, outs': seq<Out>, raised: bool)
    requires i < |rows| && Holds(WalkTo(env, rows, i), current, book.Value(), st, outs)
    modifies book
    ensures raised ==> outs' == WalkTo(env, rows, |rows|).outs && WalkTo(env, rows, |rows|).raised
    ensures !raised ==> (book' == book || fresh(book'))
                        && Holds(WalkTo(env, rows, i + 1), Some(rows[i].Key()), book'.Value(), st', outs')
  {
    var f := rows[i];
    ghost var w := WalkTo(env, rows, i);
    book', st', outs', raised := book, st, outs, false;
    if current != Some(f.Key()) {
      book', st', outs', raised := Switch(env, book, st, current, outs, f, w);
      if raised {
        RaisedOnEntry(env, rows, i);
        return;
      }
    }
    AdvanceHolds(env, rows, i, book'.Value(), st', outs');
    var more;
    st', more := AdvanceFrame(env, book', st', f);
    outs' := outs' + more;
  }

  /** The whole generator, drained. */
  method ReplayPartition(env: Env, rows: seq<Frame>) returns (outs: seq<Out>, raised: bool)
    ensures outs == ReplayOf(env, rows).outs && raised == ReplayOf(env, rows).raised
  {
    outs, raised := [], false;
    var current: Option<Key> := None;
    var book := new LakeBook.Book();
    var st := Running(false, Stamp("", "", "", "", 0, None, 0, 0, Lineage(0, 0, 0)), None, None);
    for i := 0 to |rows|
      invariant fresh(book) && !raised
      invariant Holds(WalkTo(env, rows, i), current, book.Value(), st, outs)
    {
      book, st, outs, raised := VisitFrame(env, rows, i, book, st, current, outs);
      if raised {
        return;
      }
      current := Some(rows[i].Key());
    }
    if current.Some? {
      outs, raised := Close(book, st, outs, WalkTo(env, rows, |rows|));
    }
  }
}
