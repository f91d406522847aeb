/** The history: a bounded in-memory ring over a rotating two-generation file. */
module History {
  import opened Events

  const TAIL_SCAN_BYTES := 4194304

  /** The last `n` elements of a sequence, or all of it. */
  function Suffix<T>(s: seq<T>, n: nat): (r: seq<T>)
    ensures |r| == if |s| <= n then |s| else n
  {
    if |s| <= n then s else s[|s| - n..]
  }

  /** Adding one element to a full window drops its oldest one. */
  lemma SuffixShifts<T>(s: seq<T>, x: T, n: nat)
    requires n >= 1
    ensures Suffix(s + [x], n) == Suffix(s, n - 1) + [x]
    ensures |Suffix(s, n)| == n ==> Suffix(s, n)[1..] == Suffix(s, n - 1)
    ensures |Suffix(s, n)| < n ==> Suffix(s, n) == Suffix(s, n - 1)
    ensures |Suffix(s, n)| <= n
  {
  }

  lemma SuffixOfShort<T>(s: seq<T>, n: nat)
    requires |s| <= n
    ensures Suffix(s, n) == s
  {
  }

  ghost predicate IsSuffix<T>(r: seq<T>, s: seq<T>) {
    |r| <= |s| && r == s[|s| - |r|..]
  }

  lemma OwnSuffix<T>(s: seq<T>)
    ensures IsSuffix(s, s)
  {
  }

  lemma SuffixOfSuffix<T>(a: seq<T>, b: seq<T>, c: seq<T>)
    requires IsSuffix(a, b) && IsSuffix(b, c)
    ensures IsSuffix(a, c)
  {
  }

  // ---- the file ------------------------------------------------------------------

  /** One JSONL line: the event and the bytes its line takes, newline included. */
  datatype Line = Line(ev: Event, bytes: nat)

  function Bytes(lines: seq<Line>): nat {
    if lines == [] then 0 else Bytes(lines[..|lines| - 1]) + lines[|lines| - 1].bytes
  }

  lemma BytesSnoc(lines: seq<Line>, line: Line)
    ensures Bytes(lines + [line]) == Bytes(lines) + line.bytes
    ensures Bytes([]) == 0
  {
    assert (lines + [line])[..|lines|] == lines;
  }

  function EventsOf(lines: seq<Line>): (r: seq<Event>)
    ensures |r| == |lines|
  {
    seq(|lines|, i requires 0 <= i < |lines| => lines[i].ev)
  }

  /** What a scan starting `offset` bytes into the file can parse: a line the offset cuts
      in half does not parse and is dropped. */
  function LinesFrom(lines: seq<Line>, offset: int): (r: seq<Line>)
    ensures IsSuffix(r, lines)
  {
    if offset <= 0 || lines == [] then lines else LinesFrom(lines[1..], offset - lines[0].bytes)
  }

  /** The events in the last bytes of the file. */
  function Readable(live: seq<Line>): seq<Event> {
    EventsOf(LinesFrom(live, Bytes(live) - TAIL_SCAN_BYTES))
  }

  /** The events a restart reads back: the last `n` of those. */
  function Restored(live: seq<Line>, n: nat): seq<Event> {
    Suffix(Readable(live), n)
  }

  method Tail(live: seq<Line>, n: nat) returns (evs: seq<Event>)
    requires n > 0
    ensures evs == Restored(live, n) && |evs| <= n
  {
    hide Readable, Suffix;
    var found := Readable(live);
    SuffixOfShort<Event>([], n);
    evs := [];
    for i := 0 to |found|
      invariant evs == Suffix(found[..i], n)
    {
      SuffixShifts(found[..i], found[i], n);
      assert found[..i + 1] == found[..i] + [found[i]];
      if |evs| == n { evs := evs[1..]; }
      evs := evs + [found[i]];
    }
    assert found[..|found|] == found;
  }

  // ---- queries --------------------------------------------------------------------

  datatype Query = Query(
    limit: int, failuresOnly: bool, repo: string, routineSource: Option<Source>,
    forcedOnly: bool, source: Option<Source>)

  predicate IsRoutineNoop(ev: Event) {
    ev.result == ResultSkip && ev.reason == ReasonAlreadyUpToDate
  }

  predicate Keeps(q: Query, ev: Event) {
    && !(q.failuresOnly && ev.result != ResultFail)
    && !(q.forcedOnly && !ev.IsForced())
    && !(q.repo != "" && ev.repo != q.repo)
    && !(q.source.Some? && ev.source != q.source.value)
    && !(q.routineSource.Some? && ev.source == q.routineSource.value && IsRoutineNoop(ev))
  }

  function Reversed<T>(s: seq<T>): (r: seq<T>)
    ensures |r| == |s|
  {
    seq(|s|, i requires 0 <= i < |s| => s[|s| - 1 - i])
  }

  function Filtered(s: seq<Event>, q: Query): seq<Event> {
    if s == [] then [] else (if Keeps(q, s[0]) then [s[0]] else []) + Filtered(s[1..], q)
  }

  function Take<T>(s: seq<T>, n: int): seq<T> {
    if n <= 0 then [] else if |s| <= n then s else s[..n]
  }

  /** The answer to a query: the newest matching events, newest first. */
  function Recent(ring: seq<Event>, q: Query): seq<Event> {
    Take(Filtered(Reversed(ring), q), q.limit)
  }

  lemma {:induction false} FilteredConcat(a: seq<Event>, b: seq<Event>, q: Query)
    ensures Filtered(a + b, q) == Filtered(a, q) + Filtered(b, q)
  {
    if a == [] {
      assert a + b == b;
    } else {
      assert (a + b)[1..] == a[1..] + b;
      FilteredConcat(a[1..], b, q);
    }
  }

  /** One step further back in the ring. */
  lemma RecentStep(ring: seq<Event>, i: nat, q: Query)
    requires i < |ring|
    ensures Filtered(Reversed(ring[i..]), q) ==
            Filtered(Reversed(ring[i + 1..]), q) + (if Keeps(q, ring[i]) then [ring[i]] else [])
  {
    assert Reversed(ring[i..]) == Reversed(ring[i + 1..]) + [ring[i]];
    FilteredConcat(Reversed(ring[i + 1..]), [ring[i]], q);
  }

  lemma NothingNewer(ring: seq<Event>, q: Query)
    ensures Filtered(Reversed(ring[|ring|..]), q) == []
    ensures q.limit <= 0 ==> Recent(ring, q) == []
  {
    assert Reversed(ring[|ring|..]) == [];
  }

  /** A scan down to `i` may stop there once it has the limit or the whole ring. */
  lemma ScannedEnough(ring: seq<Event>, q: Query, i: nat)
    requires i <= |ring| && q.limit >= 0
    requires var found := Filtered(Reversed(ring[i..]), q);
      |found| == q.limit || (i == 0 && |found| <= q.limit)
    ensures Recent(ring, q) == Filtered(Reversed(ring[i..]), q)
  {
    assert Reversed(ring) == Reversed(ring[i..]) + Reversed(ring[..i]);
    FilteredConcat(Reversed(ring[i..]), Reversed(ring[..i]), q);
    assert i == 0 ==> ring[..i] == [] && Reversed(ring[..i]) == [];
    assert Filtered([], q) == [];
  }

  /** The filters of a query, one after the other. */
  method Shows(q: Query, ev: Event) returns (shown: bool)
    ensures shown == Keeps(q, ev)
  {
    if q.failuresOnly && ev.result != ResultFail { return false; }
    if q.forcedOnly && !ev.IsForced() { return false; }
    if q.repo != "" && ev.repo != q.repo { return false; }
    if q.source.Some? && ev.source != q.source.value { return false; }
    if q.routineSource.Some? && ev.source == q.routineSource.value && IsRoutineNoop(ev) { return false; }
    return true;
  }

  // ---- the writer -----------------------------------------------------------------

  /** Which of the file operations of one Record succeed. A failed write leaves the file
      as it was. */
  datatype IO = IO(writes: bool, renames: bool, reopens: bool) {
    predicate AllFine() { writes && renames && reopens }
  }

  class Writer {
    // the ring is a slice: the first `len` cells of a backing array
    var buf: array<Event>
    var len: nat
    const ringSize: nat

    // the two generations on disk
    var live: seq<Line>
    var rotated: seq<Line>
    var open: bool
    var size: nat
    const maxBytes: nat

    ghost var log: seq<Event>      // restored, then recorded
    ghost var lines: seq<Line>     // every line ever handed to the file
    ghost var intact: bool         // no file operation failed
    ghost var bounded: bool        // and neither the files found nor any line crossed the limit

    ghost predicate RingIsLogSuffix()
      reads this, buf
    {
      len <= buf.Length && ringSize >= 1 && buf[..len] == Suffix(log, ringSize)
    }

    ghost predicate FileIsLineSuffix()
      reads this
    {
      && (intact ==> open && IsSuffix(rotated + live, lines) && size == Bytes(live))
      && (bounded ==> intact && Bytes(live) <= maxBytes && Bytes(rotated) <= maxBytes)
    }

    ghost predicate LogIsLineSuffix()
      reads this
    {
      IsSuffix(log, EventsOf(lines))
    }

    ghost predicate Valid()
      reads this, buf
    {
      RingIsLogSuffix() && FileIsLineSuffix() && LogIsLineSuffix()
    }

    /** Opens the history over what an earlier process left on disk. */
    constructor (live: seq<Line>, rotated: seq<Line>, ringSize: nat, maxBytes: nat)
      requires ringSize >= 1
      ensures Valid() && intact && fresh(buf)
      ensures bounded == (Bytes(live) <= maxBytes && Bytes(rotated) <= maxBytes)
      ensures buf[..len] == log == Restored(live, ringSize)
      ensures this.live == live && this.rotated == rotated && lines == rotated + live
      ensures this.ringSize == ringSize && this.maxBytes == maxBytes
    {
      hide Bytes, Restored, Suffix, EventsOf, IsSuffix;
      this.ringSize, this.maxBytes := ringSize, maxBytes;
      this.live, this.rotated, open, size := live, rotated, true, Bytes(live);
      ghost var all := rotated + live;
      lines, intact := all, true;
      bounded := Bytes(live) <= maxBytes && Bytes(rotated) <= maxBytes;
      var evs := Tail(live, ringSize);
      assert IsSuffix(all, all) && IsSuffix(evs, EventsOf(all)) && evs == Suffix(evs, ringSize) by {
        OwnSuffix(all);
        RestartRingIsLogSuffix(live, rotated, all, ringSize);
        SuffixOfShort(evs, ringSize);
      }
      log := evs;
      var restored := new Event[|evs|](i requires 0 <= i < |evs| => evs[i]);
      assert restored[..|evs|] == evs;
      buf, len := restored, |evs|;
    }

    /** Drops everything but the newest `ringSize - 1` entries, moving them down in place. */
    method ShiftOut()
      requires ringSize <= len <= buf.Length && ringSize >= 1
      modifies this`len, buf
      ensures len == ringSize - 1
      ensures buf[..len] == old(buf[..len])[old(len) - ringSize + 1..]
    {
      var cells, n, drop := buf, len, len - ringSize + 1;
      var i := 0;
      while i + drop < n
        invariant 0 <= i <= n - drop
        invariant forall k :: 0 <= k < i ==> cells[k] == old(buf[k + drop])
        invariant forall k :: i <= k < cells.Length ==> cells[k] == old(buf[k])
        modifies cells
      {
        cells[i] := cells[i + drop];
        i := i + 1;
      }
      len := ringSize - 1;
    }

    /** Appends to the bounded tail, dropping the oldest entry once full. */
    method Push(ev: Event)
      requires RingIsLogSuffix()
      modifies this`buf, this`len, this`log, buf
      ensures RingIsLogSuffix() && log == old(log) + [ev]
      ensures buf == old(buf) || fresh(buf)
    {
      hide Suffix;
      SuffixShifts(log, ev, ringSize);
      ghost var kept := Suffix(log, ringSize - 1);
      if len >= ringSize { ShiftOut(); }
      assert buf[..len] == kept;
      if len == buf.Length { Grow(ev); }
      Put(ev);
      log := log + [ev];
    }

    method Put(ev: Event)
      requires len < buf.Length
      modifies this`len, buf
      ensures len == old(len) + 1 && buf[..len] == old(buf[..len]) + [ev]
    {
      buf[len] := ev;
      len := len + 1;
      assert buf[..len - 1] == old(buf[..len]);
    }

    /** More room behind the slice, as Go's append makes it. */
    method Grow(filler: Event)
      requires len <= buf.Length
      modifies this`buf
      ensures fresh(buf) && buf.Length > len && buf[..len] == old(buf[..len])
    {
      var cells, n := buf, len;
      var grown := new Event[2 * n + 1](j requires 0 <= j < 2 * n + 1 reads cells =>
        if j < cells.Length then cells[j] else filler);
      buf := grown;
    }

    /** Moves the live file aside and starts a fresh one. */
    method Rotate(io: IO)
      requires open
      modifies this`live, this`rotated, this`open, this`size
      ensures open == io.reopens
      ensures io.renames ==> rotated == old(live) && live == []
      ensures !io.renames ==> rotated == old(rotated) && live == old(live)
      ensures size == if io.reopens then 0 else old(size)
    {
      if io.renames { rotated, live := live, []; }
      if !io.reopens {
        open := false;
        return;
      }
      size := 0;
    }

    /** Appends one line, rotating first when it would cross the limit. */
    method Append(line: Line, io: IO)
      requires FileIsLineSuffix()
      modifies this`live, this`rotated, this`open, this`size, this`lines, this`intact, this`bounded
      ensures FileIsLineSuffix() && lines == old(lines) + [line]
      ensures intact == (old(intact) && io.AllFine())
      ensures bounded == (old(bounded) && io.AllFine() && line.bytes <= maxBytes)
      ensures intact ==>
        if old(size) + line.bytes > maxBytes then rotated == old(live) && live == [line]
        else rotated == old(rotated) && live == old(live) + [line]
    {
      hide Bytes, IsSuffix;
      if intact { SuffixSnoc(rotated, live, lines, line); }
      BytesSnoc(live, line);
      BytesSnoc([], line);
      assert [] + [line] == [line];
      lines := lines + [line];
      intact, bounded := intact && io.AllFine(), bounded && io.AllFine() && line.bytes <= maxBytes;
      if !open { return; }
      if size + line.bytes > maxBytes {
        Rotate(io);
        if !open { return; }
      }
      if io.writes { live, size := live + [line], size + line.bytes; }
    }

    /** Records one event. The ring always takes it; the file takes it while it works. */
    method Record(ev: Event, bytes: nat, io: IO)
      requires Valid()
      modifies this, buf
      ensures Valid() && log == old(log) + [ev]
      ensures buf == old(buf) || fresh(buf)
      ensures lines == old(lines) + [Line(ev, bytes)]
      ensures intact == (old(intact) && io.AllFine()) && bounded == (old(bounded) && io.AllFine() && bytes <= maxBytes)
      ensures intact ==>
        if old(size) + bytes > maxBytes then rotated == old(live) && live == [Line(ev, bytes)]
        else rotated == old(rotated) && live == old(live) + [Line(ev, bytes)]
    {
      LinesSnoc(log, lines, Line(ev, bytes));
      Push(ev);
      Append(Line(ev, bytes), io);
    }

    /** The newest events matching the query, newest first. */
    method Query(q: Query) returns (out: seq<Event>)
      requires RingIsLogSuffix()
      ensures out == Recent(Suffix(log, ringSize), q)
    {
      hide Filtered, Reversed, Recent, Suffix, Keeps;
      ghost var ring := Suffix(log, ringSize);
      assert buf[..len] == ring;
      hide RingIsLogSuffix;
      NothingNewer(ring, q);
      if q.limit <= 0 { return []; }
      out := [];
      var i := len;
      while i > 0 && |out| < q.limit
        invariant 0 <= i <= len && |out| <= q.limit
        invariant out == Filtered(Reversed(ring[i..]), q)
      {
        i := i - 1;
        RecentStep(ring, i, q);
        assert buf[i] == ring[i];
        var shown := Shows(q, buf[i]);
        if shown { out := out + [buf[i]]; }
      }
      ScannedEnough(ring, q, i);
    }
  }

  // ---- restarts -------------------------------------------------------------------

  lemma SuffixSnoc<T>(older: seq<T>, newer: seq<T>, all: seq<T>, x: T)
    requires IsSuffix(older + newer, all)
    ensures IsSuffix(older + (newer + [x]), all + [x])
    ensures IsSuffix(newer + [x], all + [x])
  {
  }

  lemma LinesSnoc(log: seq<Event>, lines: seq<Line>, line: Line)
    requires IsSuffix(log, EventsOf(lines))
    ensures EventsOf(lines + [line]) == EventsOf(lines) + [line.ev]
    ensures IsSuffix(log + [line.ev], EventsOf(lines + [line]))
  {
  }

  lemma EventsOfSuffix(a: seq<Line>, b: seq<Line>)
    requires IsSuffix(a, b)
    ensures IsSuffix(EventsOf(a), EventsOf(b))
  {
  }

  lemma SuffixIsSuffix<T>(s: seq<T>, n: nat)
    ensures IsSuffix(Suffix(s, n), s)
  {
  }

  /** The ring a restart builds is a suffix of everything the file was ever given. */
  lemma RestartRingIsLogSuffix(live: seq<Line>, rotated: seq<Line>, lines: seq<Line>, n: nat)
    requires IsSuffix(rotated + live, lines)
    ensures IsSuffix(Restored(live, n), EventsOf(lines))
  {
    hide IsSuffix, LinesFrom, Bytes, Suffix, EventsOf;
    var kept := LinesFrom(live, Bytes(live) - TAIL_SCAN_BYTES);
    assert Readable(live) == EventsOf(kept);
    EndIsSuffix(rotated, live);
    SuffixIsSuffix(EventsOf(kept), n);
    SuffixOfSuffix(live, rotated + live, lines);
    SuffixOfSuffix(kept, live, lines);
    EventsOfSuffix(kept, lines);
    SuffixOfSuffix(Restored(live, n), EventsOf(kept), EventsOf(lines));
  }

  lemma EndIsSuffix<T>(a: seq<T>, b: seq<T>)
    ensures IsSuffix(b, a + b)
  {
  }

  /** Two suffixes of one sequence are equal exactly when they are as long. */
  lemma SuffixesByLength<T>(a: seq<T>, b: seq<T>, s: seq<T>)
    requires IsSuffix(a, s) && IsSuffix(b, s)
    ensures a == b <==> |a| == |b|
  {
  }

  /** A restart reads the last bytes of the live generation only, so it restores the newest `n`
      events of the files exactly when those bytes hold `n` events, or all there are. */
  lemma RestartIsCompleteExactly(live: seq<Line>, rotated: seq<Line>, n: nat)
    ensures Restored(live, n) == Suffix(EventsOf(rotated + live), n) <==>
      |Readable(live)| >= n || |Readable(live)| == |rotated + live|
  {
    var all := EventsOf(rotated + live);
    RestartRingIsLogSuffix(live, rotated, rotated + live, n);
    SuffixIsSuffix(all, n);
    ReadableIsSuffix(live, rotated);
    hide IsSuffix, Readable, EventsOf;
    SuffixesByLength(Restored(live, n), Suffix(all, n), all);
  }

  lemma ReadableIsSuffix(live: seq<Line>, rotated: seq<Line>)
    ensures |Readable(live)| <= |live| <= |rotated + live|
  {
    hide LinesFrom, Bytes;
  }

  lemma {:induction false} BytesFrom(lines: seq<Line>)
    requires lines != []
    ensures Bytes(lines) == lines[0].bytes + Bytes(lines[1..])
  {
    var n := |lines| - 1;
    if n > 0 {
      BytesFrom(lines[..n]);
      assert lines[..n][1..] == lines[1..][..n - 1];
    } else {
      BytesSnoc([], lines[0]);
      assert [] + [lines[0]] == lines;
    }
  }

  lemma {:induction false} SuffixIsLighter(part: seq<Line>, lines: seq<Line>)
    requires IsSuffix(part, lines)
    ensures Bytes(part) <= Bytes(lines)
  {
    if |part| < |lines| {
      BytesFrom(lines);
      SuffixIsLighter(part, lines[1..]);
    }
  }

  /** The longest run of whole last lines of at most so many bytes. */
  ghost predicate LongestTail(kept: seq<Line>, lines: seq<Line>, limit: nat) {
    && IsSuffix(kept, lines) && Bytes(kept) <= limit
    && forall part :: IsSuffix(part, lines) && Bytes(part) <= limit ==> |part| <= |kept|
  }

  /** What a restart reads of a file is its longest such run of at most 4 MiB. */
  lemma ReadableExactly(live: seq<Line>)
    ensures exists kept :: LongestTail(kept, live, 4 * 1024 * 1024) && Readable(live) == EventsOf(kept)
  {
    hide LinesFrom, Bytes, LongestTail, EventsOf, Readable;
    LongestFrom(live, TAIL_SCAN_BYTES);
    ReadableLines(live);
    assert TAIL_SCAN_BYTES == 4 * 1024 * 1024;
  }

  lemma ReadableLines(live: seq<Line>)
    ensures Readable(live) == EventsOf(LinesFrom(live, Bytes(live) - TAIL_SCAN_BYTES))
  {
    hide LinesFrom, Bytes, EventsOf;
  }

  lemma {:induction false} LongestFrom(lines: seq<Line>, limit: nat)
    ensures LongestTail(LinesFrom(lines, Bytes(lines) - limit), lines, limit)
  {
    hide LinesFrom, Bytes, IsSuffix;
    LinesFromStep(lines, Bytes(lines) - limit);
    NoBytes();
    if Bytes(lines) > limit && lines != [] {
      BytesFrom(lines);
      LongestFrom(lines[1..], limit);
      forall part | IsSuffix(part, lines) && Bytes(part) <= limit ensures IsSuffix(part, lines[1..]) {
        TooLongByOne(part, lines, limit);
      }
    } else {
      LongerThanNone(lines);
    }
  }

  lemma LinesFromStep(lines: seq<Line>, offset: int)
    ensures LinesFrom(lines, offset) ==
      if offset <= 0 || lines == [] then lines else LinesFrom(lines[1..], offset - lines[0].bytes)
  {
  }

  lemma NoBytes()
    ensures Bytes([]) == 0
  {
  }

  lemma LongerThanNone<T>(s: seq<T>)
    ensures forall part :: IsSuffix(part, s) ==> |part| <= |s|
  {
  }

  lemma TooLongByOne(part: seq<Line>, lines: seq<Line>, limit: nat)
    requires IsSuffix(part, lines) && Bytes(part) <= limit < Bytes(lines) && lines != []
    ensures IsSuffix(part, lines[1..])
  {
    assert |part| == |lines| ==> part == lines;
    hide Bytes;
  }

  /** A file of one line no longer than what a restart reads gives back its event. */
  lemma OneLineIsReadable(line: Line, n: nat)
    requires n >= 1 && line.bytes <= TAIL_SCAN_BYTES
    ensures Restored([line], n) == [line.ev]
  {
    BytesSnoc([], line);
    assert [] + [line] == [line];
    hide Bytes, EventsOf;
    assert Bytes([line]) == line.bytes by { assert Bytes([]) == 0; }
    assert EventsOf([line]) == [line.ev];
  }

  /** A restart over the files a history leaves. As long as their I/O worked, it restores the
      ring exactly when the bytes it reads hold as many events as the ring does. */
  method Reopen(w: Writer) returns (next: Writer)
    requires w.Valid()
    ensures next.Valid() && fresh(next) && next.buf[..next.len] == Restored(w.live, w.ringSize)
    ensures w.intact ==>
      (next.buf[..next.len] == w.buf[..w.len] <==> |Restored(w.live, w.ringSize)| == w.len)
  {
    next := new Writer(w.live, w.rotated, w.ringSize, w.maxBytes);
    SuffixIsSuffix(w.log, w.ringSize);
    if w.intact { RestartRingIsLogSuffix(w.live, w.rotated, w.lines, w.ringSize); }
    hide IsSuffix, Restored, EventsOf, Bytes, Suffix;
    assert IsSuffix(w.buf[..w.len], EventsOf(w.lines)) by {
      SuffixOfSuffix(Suffix(w.log, w.ringSize), w.log, EventsOf(w.lines));
    }
    if w.intact { SuffixesByLength(next.buf[..next.len], w.buf[..w.len], EventsOf(w.lines)); }
  }

  /** So straight after the record that rotated the file a restart restores that one event,
      however full the ring was. */
  method RecordThenReopen(w: Writer, ev: Event, bytes: nat, io: IO) returns (next: Writer)
    requires w.Valid()
    modifies w, w.buf
    ensures w.Valid() && w.log == old(w.log) + [ev] && next.Valid() && fresh(next)
    ensures w.intact && old(w.size) + bytes > w.maxBytes && bytes <= TAIL_SCAN_BYTES ==> next.buf[..next.len] == [ev]
  {
    hide Bytes, IsSuffix, EventsOf, Restored, Suffix;
    w.Record(ev, bytes, io);
    if bytes <= TAIL_SCAN_BYTES { OneLineIsReadable(Line(ev, bytes), w.ringSize); }
    next := Reopen(w);
  }
}
