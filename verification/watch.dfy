/** The reader of the watcher's log, a resumable consumer with an offset (research/listing_pump/fwd_sniper.py:42-55,
    105-146), and the one-pass reader it must agree with (research/listing_pump/analyze_watch.py:29-41). */
module WatchLog {
  import opened Lists

  /** A decoded log line; a "blocked" line has no added markets. */
  datatype Record = Record(baseline: bool, t: int, markets: seq<string>, added: seq<string>)

  /** How a line is decoded; None where decoding raises. */
  type Decoder = string -> Option<Record>

  const DEDUPE := 72 * 3_600_000
  const NEVER := -1_000_000_000_000_000

  /** The first baseline used "added". */
  function Listed(r: Record): set<string> {
    var names := if r.markets != [] then r.markets else r.added;
    set m | m in names
  }

  /** The part of a market name after its first dash. */
  function CoinOf(market: string): Option<string> {
    if market == "" then None
    else if market[0] == '-' then Some(market[1..])
    else CoinOf(market[1..])
  }

  /** The coin is what remains after a prefix without dashes and one dash. */
  lemma {:induction false} CoinMeaning(market: string, coin: string)
    ensures CoinOf(market) == Some(coin) <==>
      exists i :: 0 <= i < |market| && market[i] == '-' && '-' !in market[..i] && coin == market[i + 1..]
  {
    if market == "" {
    } else if market[0] == '-' {
      assert market[..0] == "";
      assert forall i :: 0 < i < |market| ==> market[..i][0] == '-';
    } else {
      CoinMeaning(market[1..], coin);
      forall i | 0 <= i < |market| - 1 ensures market[1..][i] == market[i + 1] &&
        ('-' in market[1..][..i] <==> '-' in market[..i + 1]) && market[1..][i + 1..] == market[i + 2..]
      {
        assert market[..i + 1] == [market[0]] + market[1..][..i];
      }
      if exists i :: 0 <= i < |market| && market[i] == '-' && '-' !in market[..i] && coin == market[i + 1..] {
        var i :| 0 <= i < |market| && market[i] == '-' && '-' !in market[..i] && coin == market[i + 1..];
        assert market[1..][i - 1] == '-';
      }
    }
  }

  // ---------------------------------------------------------------- lines of a growing file

  /** The end of the line starting here, newline included, or None for a partial last line. */
  function LineEnd(text: string, start: nat): (r: Option<nat>)
    requires start <= |text|
    ensures r.Some? ==> start < r.value <= |text| && text[r.value - 1] == '\n'
    ensures forall i :: start <= i < (if r.Some? then r.value - 1 else |text|) ==> text[i] != '\n'
    decreases |text| - start
  {
    if start == |text| then None
    else if text[start] == '\n' then Some(start + 1)
    else LineEnd(text, start + 1)
  }

  /** The complete lines of a text, from the front. */
  function Lines(text: string): seq<string> {
    var end := LineEnd(text, 0);
    if end.None? then [] else [text[..end.value]] + Lines(text[end.value..])
  }

  /** A place where a line can start. */
  predicate Boundary(text: string, offset: nat) {
    offset <= |text| && (offset == 0 || text[offset - 1] == '\n')
  }

  lemma LineEndUnique(text: string, start: nat, end: nat)
    requires start < end <= |text| && text[end - 1] == '\n'
    requires forall i :: start <= i < end - 1 ==> text[i] != '\n'
    ensures LineEnd(text, start) == Some(end)
  {
    var r := LineEnd(text, start);
    assert r.Some? ==> text[r.value - 1] == '\n';
  }

  lemma LineEndShift(text: string, start: nat)
    requires start <= |text|
    ensures var r, s := LineEnd(text, start), LineEnd(text[start..], 0);
      r.None? == s.None? && (r.Some? ==> s.value == r.value - start)
  {
    var r, s := LineEnd(text, start), LineEnd(text[start..], 0);
    assert forall i :: 0 <= i < |text| - start ==> text[start..][i] == text[i + start];
    if r.Some? {
      LineEndUnique(text[start..], 0, r.value - start);
    }
  }

  lemma LinesStep(text: string, e: nat)
    requires LineEnd(text, 0) == Some(e)
    ensures Lines(text) == [text[..e]] + Lines(text[e..])
  {
  }

  lemma NoLines()
    ensures Lines("") == []
  {
  }

  /** Cutting a text at the start of a line cuts its list of lines. */
  lemma {:induction false} LinesCut(text: string, offset: nat)
    requires Boundary(text, offset)
    ensures Lines(text) == Lines(text[..offset]) + Lines(text[offset..])
    decreases |text|
  {
    hide Lines;
    if offset == 0 {
      assert text[0..] == text && text[..0] == "";
      NoLines();
    } else {
      assert text[offset - 1] == '\n';
      var e := LineEnd(text, 0).value;
      assert e <= offset;
      var head, rest := text[..offset], text[e..];
      LineEndUnique(head, 0, e);
      LinesCut(rest, offset - e);
      LinesStep(text, e);
      LinesStep(head, e);
      assert head[..e] == text[..e];
      assert head[e..] == rest[..offset - e];
      assert rest[offset - e..] == text[offset..];
    }
  }

  lemma OneLine(text: string, start: nat, end: nat)
    requires Boundary(text, start) && LineEnd(text, start) == Some(end)
    ensures Boundary(text, end) && Lines(text[start..end]) == [text[start..end]]
  {
    hide Lines;
    var line := text[start..end];
    LineEndUnique(line, 0, |line|);
    assert line[..|line|] == line;
    assert line[|line|..] == "";
    LinesStep(line, |line|);
    NoLines();
  }

  // ---------------------------------------------------------------- one pass

  datatype Trigger = Trigger(market: string, coin: string, tSeen: int)

  /** What the reader remembers: listed markets, the last accepted time of each coin, and the triggers. */
  datatype Mem = Mem(base: set<string>, last: map<string, int>, triggers: seq<Trigger>)

  const START := Mem({}, map[], [])

  function LastOf(last: map<string, int>, coin: string): int { if coin in last then last[coin] else NEVER }

  function AddMarket(m: Mem, market: string, t: int): Mem {
    var coin := CoinOf(market);
    if market in m.base || coin.None? then m
    else if t - LastOf(m.last, coin.value) < DEDUPE then m.(base := m.base + {market})
    else Mem(m.base + {market}, m.last[coin.value := t], m.triggers + [Trigger(market, coin.value, t)])
  }

  function AddAll(m: Mem, added: seq<string>, t: int): Mem {
    if added == [] then m
    else AddMarket(AddAll(m, added[..|added| - 1], t), added[|added| - 1], t)
  }

  function Feed(m: Mem, r: Option<Record>): Mem {
    if r.None? then m
    else if r.value.baseline then m.(base := m.base + Listed(r.value))
    else AddAll(m, r.value.added, r.value.t)
  }

  function FeedAll(m: Mem, lines: seq<string>, decode: Decoder): Mem {
    if lines == [] then m
    else Feed(FeedAll(m, lines[..|lines| - 1], decode), decode(lines[|lines| - 1]))
  }

  lemma {:induction false} FeedConcat(m: Mem, a: seq<string>, b: seq<string>, decode: Decoder)
    ensures FeedAll(m, a + b, decode) == FeedAll(FeedAll(m, a, decode), b, decode)
  {
    if b == [] {
      assert a + b == a;
    } else {
      FeedConcat(m, a, b[..|b| - 1], decode);
      assert (a + b)[..|a + b| - 1] == a + b[..|b| - 1];
    }
  }

  // ---------------------------------------------------------------- the resumable reader

  /** The reader's fields at one moment. */
  datatype Snapshot = Snapshot(offset: nat, mem: Mem)

  /** What one call of the reader does to its fields: it consumes whole lines, and every one of them counts once.
      It stops early only behind a line that cannot be decoded. */
  ghost predicate ReadStep(a: Snapshot, text: string, b: Snapshot, ok: bool, decode: Decoder) {
    && a.offset <= b.offset && Boundary(text, a.offset) && Boundary(text, b.offset)
    && var lines := Lines(text[a.offset..b.offset]);
    && b.mem == FeedAll(a.mem, lines, decode)
    && (ok ==> Lines(text[b.offset..]) == [] && forall x :: x in lines ==> decode(x).Some?)
    && (!ok ==> lines != [] && decode(lines[|lines| - 1]).None?)
  }

  class State {
    var offset: nat
    var base: set<string>
    var pending: seq<Trigger>
    var last: map<string, int>

    ghost function Snap(): Snapshot
      reads this
    {
      Snapshot(offset, Mem(base, last, pending))
    }

    constructor ()
      ensures Snap() == Snapshot(0, START)
    {
      offset, base, pending, last := 0, {}, [], map[];
    }

    /** read_new(): every complete line behind the offset, once; ok is false where a line raises. */
    method ReadNew(text: string, decode: Decoder) returns (ok: bool)
      requires Boundary(text, offset)
      modifies this
      ensures ReadStep(old(Snap()), text, Snap(), ok, decode)
    {
      hide Lines, FeedAll, Feed, LineEnd;
      ghost var lines: seq<string> := [];
      NothingRead(text, offset, Snap().mem, decode);
      while true
        invariant old(offset) <= offset && Boundary(text, offset)
        invariant lines == Lines(text[old(offset)..offset])
        invariant Snap().mem == FeedAll(old(Snap().mem), lines, decode)
        invariant forall x :: x in lines ==> decode(x).Some?
        decreases |text| - offset
      {
        var end := FindLineEnd(text, offset);
        if end.None? {
          NoMoreLines(text, offset);
          return true;
        }
        var raw := text[offset..end.value];
        MoreRead(text, old(offset), offset, end.value);
        FeedOneMore(old(Snap().mem), lines, raw, decode);
        offset := end.value;
        lines := lines + [raw];
        var r := decode(raw);
        if r.None? {
          return false;
        }
        Take(r.value);
      }
    }

    /** One decoded line. */
    method Take(r: Record)
      modifies `base, `pending, `last
      ensures Snap().mem == Feed(old(Snap().mem), Some(r))
    {
      if r.baseline {
        base := base + Listed(r);
        return;
      }
      for i := 0 to |r.added|
        invariant Snap().mem == AddAll(old(Snap().mem), r.added[..i], r.t)
      {
        assert r.added[..i + 1][..i] == r.added[..i];
        var m := r.added[i];
        var coin := CoinOf(m);
        if m in base || coin.None? {
          continue;
        }
        base := base + {m};
        if r.t - LastOf(last, coin.value) < DEDUPE {
          continue;
        }
        last := last[coin.value := r.t];
        pending := pending + [Trigger(m, coin.value, r.t)];
      }
      assert r.added[..|r.added|] == r.added;
    }
  }

  method FindLineEnd(text: string, start: nat) returns (end: Option<nat>)
    requires start <= |text|
    ensures end == LineEnd(text, start)
  {
    var i := start;
    while i < |text|
      invariant start <= i <= |text|
      invariant LineEnd(text, start) == LineEnd(text, i)
    {
      if text[i] == '\n' {
        return Some(i + 1);
      }
      i := i + 1;
    }
    return None;
  }

  lemma NothingRead(text: string, offset: nat, m: Mem, decode: Decoder)
    requires offset <= |text|
    ensures Lines(text[offset..offset]) == [] && FeedAll(m, [], decode) == m
  {
  }

  lemma NoMoreLines(text: string, offset: nat)
    requires offset <= |text| && LineEnd(text, offset).None?
    ensures Lines(text[offset..]) == []
  {
    LineEndShift(text, offset);
  }

  lemma SliceTwice(text: string, a: nat, b: nat, c: nat)
    requires a <= b <= c <= |text|
    ensures text[a..c][..b - a] == text[a..b] && text[a..c][b - a..] == text[b..c]
  {
  }

  lemma MoreRead(text: string, from: nat, start: nat, end: nat)
    requires from <= start && Boundary(text, from) && Boundary(text, start) && LineEnd(text, start) == Some(end)
    ensures start < end && Boundary(text, end)
    ensures Lines(text[from..end]) == Lines(text[from..start]) + [text[start..end]]
  {
    hide Lines;
    var part := text[from..end];
    OneLine(text, start, end);
    LinesCut(part, start - from);
    SliceTwice(text, from, start, end);
  }

  lemma FeedOneMore(m: Mem, lines: seq<string>, line: string, decode: Decoder)
    ensures FeedAll(m, lines + [line], decode) == Feed(FeedAll(m, lines, decode), decode(line))
    ensures decode(line).None? ==> Feed(FeedAll(m, lines, decode), decode(line)) == FeedAll(m, lines, decode)
  {
    assert (lines + [line])[..|lines|] == lines;
  }

  // ---------------------------------------------------------------- any growth, any interleaving

  predicate Grows(texts: seq<string>) {
    forall i, j :: 0 <= i < j < |texts| ==> texts[i] <= texts[j]
  }

  /** A run: the log grows by any amount between calls, even by part of a line, and any call may meet a bad line. */
  ghost predicate Reads(texts: seq<string>, snaps: seq<Snapshot>, oks: seq<bool>, decode: Decoder) {
    && |snaps| == |texts| + 1 == |oks| + 1 && Grows(texts) && snaps[0] == Snapshot(0, START)
    && forall i :: 0 <= i < |texts| ==> ReadStep(snaps[i], texts[i], snaps[i + 1], oks[i], decode)
  }

  lemma ReadsFront(texts: seq<string>, snaps: seq<Snapshot>, oks: seq<bool>, decode: Decoder)
    requires Reads(texts, snaps, oks, decode) && texts != []
    ensures Reads(texts[..|texts| - 1], snaps[..|texts|], oks[..|texts| - 1], decode)
  {
    hide ReadStep;
    var n, front := |texts| - 1, snaps[..|texts|];
    forall i | 0 <= i < n ensures ReadStep(front[i], texts[..n][i], front[i + 1], oks[..n][i], decode) {
      assert ReadStep(snaps[i], texts[i], snaps[i + 1], oks[i], decode);
    }
  }

  /** After any run the fields are those of a single pass over the lines before the offset. */
  lemma {:induction false} ReadsAreOnePass(texts: seq<string>, snaps: seq<Snapshot>, oks: seq<bool>, decode: Decoder, text: string)
    requires Reads(texts, snaps, oks, decode)
    requires texts != [] ==> texts[|texts| - 1] <= text
    ensures var s := snaps[|texts|];
      Boundary(text, s.offset) && s.mem == FeedAll(START, Lines(text[..s.offset]), decode)
  {
    hide ReadStep, FeedAll, Lines;
    if texts == [] {
      assert text[..0] == text[0..0];
      NothingRead(text, 0, START, decode);
    } else {
      var n := |texts| - 1;
      ReadsFront(texts, snaps, oks, decode);
      ReadsAreOnePass(texts[..n], snaps[..|texts|], oks[..n], decode, texts[n]);
      OneStepFurther(snaps[n], texts[n], snaps[n + 1], oks[n], decode, text);
    }
  }

  lemma OneStepFurther(a: Snapshot, text: string, b: Snapshot, ok: bool, decode: Decoder, later: string)
    requires ReadStep(a, text, b, ok, decode) && text <= later
    requires a.mem == FeedAll(START, Lines(text[..a.offset]), decode)
    ensures Boundary(later, b.offset) && b.mem == FeedAll(START, Lines(later[..b.offset]), decode)
  {
    hide FeedAll, Lines;
    var read := later[..b.offset];
    assert read == text[..b.offset];
    LinesCut(read, a.offset);
    assert read[..a.offset] == text[..a.offset];
    assert read[a.offset..] == text[a.offset..b.offset];
    FeedConcat(START, Lines(text[..a.offset]), Lines(text[a.offset..b.offset]), decode);
  }

  /** When the last call met no bad line, that pass covers every complete line of the log. */
  lemma CaughtUp(texts: seq<string>, snaps: seq<Snapshot>, oks: seq<bool>, decode: Decoder)
    requires Reads(texts, snaps, oks, decode) && texts != []
    requires oks[|texts| - 1]
    ensures snaps[|texts|].mem == FeedAll(START, Lines(texts[|texts| - 1]), decode)
  {
    hide Lines, FeedAll;
    var text, s := texts[|texts| - 1], snaps[|texts|];
    ReadsAreOnePass(texts, snaps, oks, decode, text);
    LinesCut(text, s.offset);
    assert Lines(text[..s.offset]) + [] == Lines(text[..s.offset]);
  }

  // ---------------------------------------------------------------- 72 hours between triggers of a coin

  predicate Spaced(m: Mem) {
    && (forall i, j :: 0 <= i < j < |m.triggers| && m.triggers[i].coin == m.triggers[j].coin ==>
          m.triggers[i].tSeen + DEDUPE <= m.triggers[j].tSeen)
    && forall i :: 0 <= i < |m.triggers| ==>
          m.triggers[i].coin in m.last && m.triggers[i].tSeen <= m.last[m.triggers[i].coin]
  }

  lemma {:induction false} AddAllSpaced(m: Mem, added: seq<string>, t: int)
    requires Spaced(m)
    ensures Spaced(AddAll(m, added, t))
  {
    if added != [] {
      AddAllSpaced(m, added[..|added| - 1], t);
    }
  }

  /** Any two accepted triggers of one coin are at least 72 hours apart. */
  lemma {:induction false} TriggersSpaced(lines: seq<string>, decode: Decoder)
    ensures Spaced(FeedAll(START, lines, decode))
  {
    if lines != [] {
      TriggersSpaced(lines[..|lines| - 1], decode);
      var m, r := FeedAll(START, lines[..|lines| - 1], decode), decode(lines[|lines| - 1]);
      if r.Some? && !r.value.baseline {
        AddAllSpaced(m, r.value.added, r.value.t);
      }
    }
  }

  // ---------------------------------------------------------------- the one-pass reader

  datatype Seen = Seen(base: Option<set<string>>, seen: map<string, int>)

  function SeeMarket(s: Seen, market: string, t: int): Seen {
    if s.base.Some? && market !in s.base.value && market !in s.seen then s.(seen := s.seen[market := t]) else s
  }

  function SeeAll(s: Seen, added: seq<string>, t: int): Seen {
    if added == [] then s
    else SeeMarket(SeeAll(s, added[..|added| - 1], t), added[|added| - 1], t)
  }

  function See(s: Seen, r: Record): Seen {
    if r.baseline then s.(base := Some(if s.base.None? then Listed(r) else s.base.value + Listed(r)))
    else SeeAll(s, r.added, r.t)
  }

  function SeeLog(log: seq<Record>): Seen {
    if log == [] then Seen(None, map[]) else See(SeeLog(log[..|log| - 1]), log[|log| - 1])
  }

  /** first_seen(): None where a line raises. */
  method FirstSeen(lines: seq<string>, decode: Decoder) returns (result: Option<map<string, int>>, ghost log: seq<Record>)
    ensures result.Some? <==> forall x :: x in lines ==> decode(x).Some?
    ensures result.Some? ==> |log| == |lines| && forall i :: 0 <= i < |log| ==> decode(lines[i]) == Some(log[i])
    ensures result.Some? ==> result.value == SeeLog(log).seen
  {
    var seen: map<string, int>, base: Option<set<string>> := map[], None;
    log := [];
    for i := 0 to |lines|
      invariant |log| == i && forall j :: 0 <= j < i ==> decode(lines[j]) == Some(log[j])
      invariant Seen(base, seen) == SeeLog(log)
    {
      var r := decode(lines[i]);
      if r.None? {
        return None, log;
      }
      log := log + [r.value];
      assert log[..i] + [r.value] == log;
      if r.value.baseline {
        var listed := Listed(r.value);
        base := Some(if base.None? then listed else base.value + listed);
        continue;
      }
      seen := SeenAdded(base, seen, r.value.added, r.value.t);
    }
    result := Some(seen);
  }

  method SeenAdded(base: Option<set<string>>, seen0: map<string, int>, added: seq<string>, t: int)
    returns (seen: map<string, int>)
    ensures Seen(base, seen) == SeeAll(Seen(base, seen0), added, t)
  {
    seen := seen0;
    for i := 0 to |added|
      invariant Seen(base, seen) == SeeAll(Seen(base, seen0), added[..i], t)
    {
      assert added[..i + 1][..i] == added[..i];
      var m := added[i];
      if base.Some? && m !in base.value && m !in seen {
        seen := seen[m := t];
      }
    }
    assert added[..|added|] == added;
  }

  /** Line i adds the market after a baseline, and no baseline before it lists the market. */
  ghost predicate AddedAt(log: seq<Record>, market: string, i: nat) {
    && i < |log| && !log[i].baseline && market in log[i].added
    && (exists j :: 0 <= j < i && log[j].baseline)
    && forall j :: 0 <= j < i && log[j].baseline ==>
         market !in log[j].markets && (log[j].markets == [] ==> market !in log[j].added)
  }

  lemma {:induction false} SeeAllMeaning(s: Seen, added: seq<string>, t: int)
    ensures SeeAll(s, added, t).base == s.base
    ensures forall m :: m in SeeAll(s, added, t).seen <==>
              m in s.seen || (m in added && s.base.Some? && m !in s.base.value)
    ensures forall m :: m in SeeAll(s, added, t).seen ==>
              SeeAll(s, added, t).seen[m] == if m in s.seen then s.seen[m] else t
  {
    if added != [] {
      var n := |added| - 1;
      SeeAllMeaning(s, added[..n], t);
      assert added == added[..n] + [added[n]];
    }
  }

  /** The listed markets are those of the baselines; before the first one there are none. */
  lemma {:induction false} BaseMeaning(log: seq<Record>)
    ensures SeeLog(log).base.Some? <==> exists j :: 0 <= j < |log| && log[j].baseline
    ensures SeeLog(log).base.Some? ==> forall m :: m in SeeLog(log).base.value <==>
              exists j :: 0 <= j < |log| && log[j].baseline && m in Listed(log[j])
  {
    if log != [] {
      var n := |log| - 1;
      BaseMeaning(log[..n]);
      var s := SeeLog(log[..n]);
      SeeAllMeaning(s, log[n].added, log[n].t);
      assert forall j :: 0 <= j < n ==> log[..n][j] == log[j];
    }
  }

  ghost predicate FirstAddedAt(log: seq<Record>, market: string, i: nat) {
    AddedAt(log, market, i) && forall j :: 0 <= j < i ==> !AddedAt(log, market, j)
  }

  /** A market is in the result exactly when some line first adds it, and its time is that line's. */
  lemma {:induction false} SeenMeaning(log: seq<Record>, market: string)
    ensures market in SeeLog(log).seen <==> exists i: nat :: FirstAddedAt(log, market, i)
    ensures forall i: nat :: FirstAddedAt(log, market, i) && market in SeeLog(log).seen ==> SeeLog(log).seen[market] == log[i].t
  {
    hide AddedAt, FirstAddedAt;
    if log == [] {
      NothingAdded(market);
    } else {
      var n := |log| - 1;
      var before, s, r := log[..n], SeeLog(log[..n]), log[n];
      SeenMeaning(before, market);
      SeeAllMeaning(s, r.added, r.t);
      AddedLast(log, market);
      forall i: nat ensures FirstAddedAt(log, market, i) <==>
        FirstAddedAt(before, market, i) || (i == n && AddedAt(log, market, n) && market !in s.seen)
        ensures FirstAddedAt(before, market, i) ==> i < n && before[i] == log[i]
      {
        FirstAddedGrows(log, market, i);
      }
      if market in s.seen {
        var i: nat :| FirstAddedAt(before, market, i);
        assert FirstAddedAt(log, market, i);
      } else if AddedAt(log, market, n) {
        assert FirstAddedAt(log, market, n);
      }
    }
  }

  lemma NothingAdded(market: string)
    ensures forall i: nat :: !FirstAddedAt([], market, i)
  {
  }

  lemma FirstAddedGrows(log: seq<Record>, market: string, i: nat)
    requires log != []
    ensures var n := |log| - 1;
      FirstAddedAt(log, market, i) <==>
      FirstAddedAt(log[..n], market, i) ||
      (i == n && AddedAt(log, market, n) && !exists j: nat :: FirstAddedAt(log[..n], market, j))
    ensures FirstAddedAt(log[..|log| - 1], market, i) ==> i < |log| - 1
  {
    var n := |log| - 1;
    forall j: nat | j < n ensures AddedAt(log, market, j) <==> AddedAt(log[..n], market, j) {
      AddedEarlier(log, market, j);
    }
    if i == n && AddedAt(log, market, n) && !exists j: nat :: FirstAddedAt(log[..n], market, j) {
      NoneEarlier(log[..n], market);
    }
  }

  lemma AddedEarlier(log: seq<Record>, market: string, i: nat)
    requires i < |log| - 1
    ensures AddedAt(log, market, i) <==> AddedAt(log[..|log| - 1], market, i)
  {
    assert forall j :: 0 <= j <= i ==> log[..|log| - 1][j] == log[j];
  }

  lemma AddedLast(log: seq<Record>, market: string)
    requires log != []
    ensures AddedAt(log, market, |log| - 1) <==>
      var r, s := log[|log| - 1], SeeLog(log[..|log| - 1]);
      !r.baseline && market in r.added && s.base.Some? && market !in s.base.value
  {
    var n := |log| - 1;
    BaseMeaning(log[..n]);
    assert forall j :: 0 <= j < n ==> log[..n][j] == log[j];
  }

  /** Without a first line that adds a market there is none at all. */
  lemma NoneEarlier(log: seq<Record>, market: string)
    requires !exists i: nat :: FirstAddedAt(log, market, i)
    ensures forall i: nat :: !AddedAt(log, market, i)
  {
    forall i: nat ensures !AddedAt(log, market, i) {
      NoneUpTo(log, market, i);
    }
  }

  lemma {:induction false} NoneUpTo(log: seq<Record>, market: string, i: nat)
    requires !exists i: nat :: FirstAddedAt(log, market, i)
    ensures forall j: nat :: j <= i ==> !AddedAt(log, market, j)
  {
    if i > 0 {
      NoneUpTo(log, market, i - 1);
    }
    assert !FirstAddedAt(log, market, i);
  }

  // ---------------------------------------------------------------- both readers on one log

  function FeedLog(log: seq<Record>): Mem {
    if log == [] then START else Feed(FeedLog(log[..|log| - 1]), Some(log[|log| - 1]))
  }

  /** On a well-formed log the resumable reader's pass is a pass over the records. */
  lemma {:induction false} FeedIsFeedLog(lines: seq<string>, decode: Decoder, log: seq<Record>)
    requires |log| == |lines| && forall i :: 0 <= i < |log| ==> decode(lines[i]) == Some(log[i])
    ensures FeedAll(START, lines, decode) == FeedLog(log)
  {
    if log != [] {
      FeedIsFeedLog(lines[..|lines| - 1], decode, log[..|log| - 1]);
    }
  }

  ghost predicate HasTrigger(triggers: seq<Trigger>, market: string) {
    exists i :: 0 <= i < |triggers| && triggers[i].market == market
  }

  predicate IsListed(s: Seen, market: string) { s.base.Some? && market in s.base.value }

  /** What the two readers have in common after the same lines: what is listed or seen, and the time of each trigger. */
  ghost predicate Agree(s: Seen, m: Mem) {
    && (forall x :: CoinOf(x).Some? ==> (x in m.base <==> IsListed(s, x) || x in s.seen))
    && forall i :: 0 <= i < |m.triggers| ==>
         var e := m.triggers[i]; CoinOf(e.market) == Some(e.coin) && e.market in s.seen && s.seen[e.market] == e.tSeen
  }

  lemma AgreeStep(s: Seen, m: Mem, market: string, t: int)
    requires Agree(s, m) && s.base.Some?
    ensures Agree(SeeMarket(s, market, t), AddMarket(m, market, t))
  {
    hide CoinOf;
    var e := Trigger(market, if CoinOf(market).Some? then CoinOf(market).value else "", t);
    var more := m.triggers + [e];
    assert more[|m.triggers|] == e;
    assert forall i :: 0 <= i < |m.triggers| ==> more[i] == m.triggers[i];
  }

  lemma {:induction false} AgreeAll(s: Seen, m: Mem, added: seq<string>, t: int)
    requires Agree(s, m) && (added != [] ==> s.base.Some?)
    ensures Agree(SeeAll(s, added, t), AddAll(m, added, t))
  {
    hide Agree;
    if added != [] {
      var n := |added| - 1;
      AgreeAll(s, m, added[..n], t);
      SeeAllMeaning(s, added[..n], t);
      AgreeStep(SeeAll(s, added[..n], t), AddAll(m, added[..n], t), added[n], t);
    }
  }

  /** The log starts with a baseline, up to lines that add nothing. */
  predicate Headed(log: seq<Record>) {
    forall i :: 0 <= i < |log| && !log[i].baseline && log[i].added != [] ==> exists j :: 0 <= j < i && log[j].baseline
  }

  /** For a log that starts with a baseline, every trigger is of a market the one-pass reader saw, at that reader's
      time. */
  lemma {:induction false} TriggersAreFirstSeen(log: seq<Record>)
    requires Headed(log)
    ensures Agree(SeeLog(log), FeedLog(log))
  {
    hide Agree;
    if log == [] {
      AgreeStart();
    } else {
      var n := |log| - 1;
      assert forall i :: 0 <= i < n ==> log[..n][i] == log[i];
      TriggersAreFirstSeen(log[..n]);
      var s, m := SeeLog(log[..n]), FeedLog(log[..n]);
      BaseMeaning(log[..n]);
      if log[n].baseline {
        AgreeBaseline(s, m, log[n]);
      } else {
        AgreeAll(s, m, log[n].added, log[n].t);
      }
    }
  }

  lemma AgreeStart()
    ensures Agree(Seen(None, map[]), START)
  {
  }

  lemma AgreeBaseline(s: Seen, m: Mem, r: Record)
    requires Agree(s, m) && r.baseline
    ensures Agree(See(s, r), Feed(m, Some(r)))
  {
  }

  // ---------------------------------------------------------------- which markets trigger

  function MarketOf(): Trigger -> string { (e: Trigger) => e.market }

  predicate Fresh(m: Mem) {
    DistinctBy(m.triggers, MarketOf()) && forall i :: 0 <= i < |m.triggers| ==> m.triggers[i].market in m.base
  }

  lemma {:induction false} AddAllFresh(m: Mem, added: seq<string>, t: int)
    requires Fresh(m)
    ensures Fresh(AddAll(m, added, t))
  {
    if added != [] {
      AddAllFresh(m, added[..|added| - 1], t);
    }
  }

  lemma {:induction false} FeedFresh(lines: seq<string>, decode: Decoder)
    ensures Fresh(FeedAll(START, lines, decode))
  {
    if lines != [] {
      FeedFresh(lines[..|lines| - 1], decode);
      var r := decode(lines[|lines| - 1]);
      if r.Some? && !r.value.baseline {
        AddAllFresh(FeedAll(START, lines[..|lines| - 1], decode), r.value.added, r.value.t);
      }
    }
  }

  lemma {:induction false} LogFresh(log: seq<Record>)
    ensures Fresh(FeedLog(log))
  {
    if log != [] {
      var n := |log| - 1;
      LogFresh(log[..n]);
      if !log[n].baseline {
        AddAllFresh(FeedLog(log[..n]), log[n].added, log[n].t);
      }
    }
  }

  /** An accepted trigger of the coin lies less than 72 hours before this time. */
  ghost predicate Suppressed(triggers: seq<Trigger>, coin: string, t: int) {
    exists i :: 0 <= i < |triggers| && triggers[i].coin == coin && t - triggers[i].tSeen < DEDUPE
  }

  /** The last accepted time of a coin is that of one of its triggers, and none is later. */
  ghost predicate LastIsTrigger(m: Mem) {
    && Spaced(m)
    && forall c :: c in m.last ==> m.last[c] - NEVER >= DEDUPE && exists i ::
         0 <= i < |m.triggers| && m.triggers[i].coin == c && m.triggers[i].tSeen == m.last[c]
  }

  lemma LastStep(m: Mem, market: string, t: int)
    requires LastIsTrigger(m)
    ensures LastIsTrigger(AddMarket(m, market, t))
  {
    hide CoinOf;
    if CoinOf(market).Some? {
      var e := Trigger(market, CoinOf(market).value, t);
      var more := m.triggers + [e];
      assert more[|m.triggers|] == e;
      assert forall i :: 0 <= i < |m.triggers| ==> more[i] == m.triggers[i];
    }
  }

  lemma {:induction false} LastAll(m: Mem, added: seq<string>, t: int)
    requires LastIsTrigger(m)
    ensures LastIsTrigger(AddAll(m, added, t))
  {
    hide LastIsTrigger, AddMarket;
    if added != [] {
      LastAll(m, added[..|added| - 1], t);
      LastStep(AddAll(m, added[..|added| - 1], t), added[|added| - 1], t);
    }
  }

  lemma {:induction false} LastInLog(log: seq<Record>)
    ensures LastIsTrigger(FeedLog(log))
  {
    if log != [] {
      var n := |log| - 1;
      LastInLog(log[..n]);
      if !log[n].baseline {
        LastAll(FeedLog(log[..n]), log[n].added, log[n].t);
      }
    }
  }

  /** The reader's test of the last accepted time is a test of all accepted triggers of the coin. */
  lemma LastDecides(m: Mem, coin: string, t: int)
    requires LastIsTrigger(m)
    ensures t - LastOf(m.last, coin) >= DEDUPE <==> t - NEVER >= DEDUPE && !Suppressed(m.triggers, coin, t)
  {
  }

  lemma {:induction false} AddAllConcat(m: Mem, a: seq<string>, b: seq<string>, t: int)
    ensures AddAll(m, a + b, t) == AddAll(AddAll(m, a, t), b, t)
  {
    if b == [] {
      assert a + b == a;
    } else {
      AddAllConcat(m, a, b[..|b| - 1], t);
      assert (a + b)[..|a + b| - 1] == a + b[..|b| - 1];
    }
  }

  /** A market that is listed or was seen never triggers again. */
  lemma {:induction false} NeverAgain(m: Mem, added: seq<string>, t: int, market: string)
    requires market in m.base
    ensures market in AddAll(m, added, t).base
    ensures HasTrigger(AddAll(m, added, t).triggers, market) <==> HasTrigger(m.triggers, market)
  {
    hide CoinOf, HasTrigger;
    if added != [] {
      var n := |added| - 1;
      NeverAgain(m, added[..n], t, market);
      OtherMarket(AddAll(m, added[..n], t), added[n], t, market);
    }
  }

  lemma OtherMarket(m: Mem, other: string, t: int, market: string)
    requires market in m.base
    ensures HasTrigger(AddMarket(m, other, t).triggers, market) <==> HasTrigger(m.triggers, market)
  {
    hide CoinOf;
    if CoinOf(other).Some? {
      var e := Trigger(other, CoinOf(other).value, t);
      var more := m.triggers + [e];
      assert more[|m.triggers|] == e;
      assert forall i :: 0 <= i < |m.triggers| ==> more[i] == m.triggers[i];
    }
  }

  lemma {:induction false} NeverLater(log: seq<Record>, n: nat, market: string)
    requires n <= |log| && market in FeedLog(log[..n]).base
    ensures HasTrigger(FeedLog(log).triggers, market) <==> HasTrigger(FeedLog(log[..n]).triggers, market)
    ensures market in FeedLog(log).base
  {
    hide HasTrigger;
    if n == |log| {
      assert log[..n] == log;
    } else {
      var k := |log| - 1;
      assert log[..k][..n] == log[..n];
      NeverLater(log[..k], n, market);
      if !log[k].baseline {
        NeverAgain(FeedLog(log[..k]), log[k].added, log[k].t, market);
      }
    }
  }

  /** A market not mentioned is not taken in. */
  lemma {:induction false} NotTaken(m: Mem, added: seq<string>, t: int, market: string)
    requires market !in m.base && market !in added
    ensures market !in AddAll(m, added, t).base
  {
    hide CoinOf;
    if added != [] {
      assert added == added[..|added| - 1] + [added[|added| - 1]];
      NotTaken(m, added[..|added| - 1], t, market);
    }
  }

  /** The k-th market of line i is first added there. */
  ghost predicate FirstEntry(log: seq<Record>, market: string, i: nat, k: nat) {
    && FirstAddedAt(log, market, i)
    && k < |log[i].added| && log[i].added[k] == market && market !in log[i].added[..k]
  }

  /** What the reader has accepted before the k-th market of line i. */
  function Before(log: seq<Record>, i: nat, k: nat): Mem
    requires i < |log| && k <= |log[i].added|
  {
    AddAll(FeedLog(log[..i]), log[i].added[..k], log[i].t)
  }

  lemma NotBefore(log: seq<Record>, market: string, i: nat, k: nat)
    requires Headed(log) && FirstEntry(log, market, i, k) && CoinOf(market).Some?
    ensures market !in Before(log, i, k).base && !HasTrigger(Before(log, i, k).triggers, market)
  {
    var front := log[..i];
    assert Headed(front) by {
      assert forall j :: 0 <= j < i ==> front[j] == log[j];
    }
    TriggersAreFirstSeen(front);
    NotSeenBefore(log, market, i);
    NotTaken(FeedLog(front), log[i].added[..k], log[i].t, market);
    LogFresh(front);
    AddAllFresh(FeedLog(front), log[i].added[..k], log[i].t);
  }

  lemma NotSeenBefore(log: seq<Record>, market: string, i: nat)
    requires FirstAddedAt(log, market, i)
    ensures market !in SeeLog(log[..i]).seen && !IsListed(SeeLog(log[..i]), market)
  {
    var front := log[..i];
    assert forall j :: 0 <= j < i ==> front[j] == log[j];
    SeenMeaning(front, market);
    BaseMeaning(front);
    forall j: nat ensures !FirstAddedAt(front, market, j) {
      if j < i {
        assert AddedAt(front, market, j) <==> AddedAt(log, market, j);
      }
    }
  }

  /** A coin market triggers exactly when, at its first entry, no trigger of its coin accepted before that entry lies
      less than 72 hours back. */
  lemma TriggeredExactly(log: seq<Record>, market: string, i: nat, k: nat)
    requires Headed(log) && FirstEntry(log, market, i, k) && CoinOf(market).Some?
    ensures HasTrigger(FeedLog(log).triggers, market) <==>
            log[i].t - NEVER >= DEDUPE && !Suppressed(Before(log, i, k).triggers, CoinOf(market).value, log[i].t)
  {
    hide CoinOf, HasTrigger, Suppressed, LastIsTrigger, Headed, FirstAddedAt, AddMarket;
    EntryLine(log, market, i, k);
    var r, m := log[i], Before(log, i, k);
    NotBefore(log, market, i, k);
    LastInLog(log[..i]);
    LastAll(FeedLog(log[..i]), r.added[..k], r.t);
    LastDecides(m, CoinOf(market).value, r.t);
    TriggersNow(m, market, r.t);
    assert r.added == r.added[..k] + [market] + r.added[k + 1..];
    AddAllConcat(FeedLog(log[..i]), r.added[..k] + [market], r.added[k + 1..], r.t);
    AddAllConcat(FeedLog(log[..i]), r.added[..k], [market], r.t);
    assert [market][..0] == [];
    NeverAgain(AddMarket(m, market, r.t), r.added[k + 1..], r.t, market);
    assert log[..i + 1][..i] == log[..i];
    NeverLater(log, i + 1, market);
  }

  lemma EntryLine(log: seq<Record>, market: string, i: nat, k: nat)
    requires FirstEntry(log, market, i, k)
    ensures i < |log| && !log[i].baseline
  {
  }

  lemma TriggersNow(m: Mem, market: string, t: int)
    requires market !in m.base && !HasTrigger(m.triggers, market) && CoinOf(market).Some?
    ensures market in AddMarket(m, market, t).base
    ensures HasTrigger(AddMarket(m, market, t).triggers, market) <==> t - LastOf(m.last, CoinOf(market).value) >= DEDUPE
  {
    hide CoinOf;
    var e := Trigger(market, CoinOf(market).value, t);
    assert (m.triggers + [e])[|m.triggers|] == e;
  }

  /** The triggers are those the one-pass reader's first sightings call for. */
  ghost predicate CalledFor(triggers: seq<Trigger>, log: seq<Record>) {
    forall market, i: nat, k: nat | FirstEntry(log, market, i, k) && CoinOf(market).Some? ::
      HasTrigger(triggers, market) <==>
      log[i].t - NEVER >= DEDUPE && !Suppressed(Before(log, i, k).triggers, CoinOf(market).value, log[i].t)
  }

  lemma LogCallsFor(log: seq<Record>)
    requires Headed(log)
    ensures CalledFor(FeedLog(log).triggers, log)
  {
    hide HasTrigger, Suppressed, Before, FeedLog, CoinOf, Headed, FirstAddedAt;
    forall market, i: nat, k: nat | FirstEntry(log, market, i, k) && CoinOf(market).Some?
      ensures FirstAddedAt(log, market, i)
      ensures i < |log| && k < |log[i].added| && CoinOf(market).Some? &&
              (HasTrigger(FeedLog(log).triggers, market) <==>
               log[i].t - NEVER >= DEDUPE && !Suppressed(Before(log, i, k).triggers, CoinOf(market).value, log[i].t))
    {
      EntryLine(log, market, i, k);
      TriggeredExactly(log, market, i, k);
    }
  }

  /** Any run that caught up with a well-formed log has the one-pass reader's times, and the triggers that reader's first
      sightings call for. */
  lemma ReadersAgree(texts: seq<string>, snaps: seq<Snapshot>, oks: seq<bool>, decode: Decoder, log: seq<Record>)
    requires Reads(texts, snaps, oks, decode) && texts != [] && oks[|texts| - 1]
    requires var lines := Lines(texts[|texts| - 1]);
      |log| == |lines| && forall i :: 0 <= i < |log| ==> decode(lines[i]) == Some(log[i])
    requires Headed(log)
    ensures Agree(SeeLog(log), snaps[|texts|].mem) && CalledFor(snaps[|texts|].mem.triggers, log)
  {
    hide Agree, CalledFor, Lines, FeedAll, FeedLog, Headed, ReadStep;
    CaughtUp(texts, snaps, oks, decode);
    FeedIsFeedLog(Lines(texts[|texts| - 1]), decode, log);
    TriggersAreFirstSeen(log);
    LogCallsFor(log);
  }
}
