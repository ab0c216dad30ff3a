/** The IP blocklist: CIDR rows, indexed by prefix length for lookup. */
module Blocklist {
  import opened Results

  /** A prefix length of an IPv4 address. */
  type Length = n: nat | n <= 32

  /** A 32-bit address. */
  type Address = n: nat | n < 0x1_0000_0000

  /** The number with its last `k` bits cleared. */
  function Cleared(x: nat, k: nat): (base: nat)
    ensures base <= x
  {
    if k == 0 then x else 2 * Cleared(x / 2, k - 1)
  }

  /** The address under the mask of `len` leading ones. */
  function GetBaseIp(addr: Address, len: Length): Address {
    Cleared(addr, 32 - len)
  }

  /** What a line of a blocklist file denotes. */
  datatype Line = Comment | Range(addr: Address, len: Length) | Single(addr: Address)

  datatype Row = Row(baseIp: Address, prefixLength: Length)

  function ParseRow(line: Line): Option<Row> {
    match line
    case Comment => None
    case Range(addr, len) => Some(Row(GetBaseIp(addr, len), len))
    case Single(addr) => Some(Row(addr, 32))
  }

  // ---- What the rows mean ----

  /** The number without its last `k` bits. */
  function Leading(x: nat, k: nat): nat {
    if k == 0 then x else Leading(x / 2, k - 1)
  }

  /** The address agrees with the row's on the first `len` bits (section 3.1 of RFC 4632). */
  predicate Covers(line: Line, x: Address) {
    match line
    case Comment => false
    case Range(addr, len) => Leading(x, 32 - len) == Leading(addr, 32 - len)
    case Single(addr) => x == addr
  }

  /** The plain linear scan. */
  ghost predicate Listed(lines: seq<Line>, x: Address) {
    exists i :: 0 <= i < |lines| && Covers(lines[i], x)
  }

  /** Masking compares exactly the leading bits. */
  lemma {:induction false} MaskedIsLeading(x: nat, a: nat, k: nat)
    ensures Cleared(x, k) == Cleared(a, k) <==> Leading(x, k) == Leading(a, k)
    decreases k
  {
    if k > 0 {
      MaskedIsLeading(x / 2, a / 2, k - 1);
    }
  }

  /** The number of addresses that share all but their last `k` bits. */
  function BlockSize(k: nat): nat {
    if k == 0 then 1 else 2 * BlockSize(k - 1)
  }

  lemma {:induction false} ClearedIsInterval(x: nat, a: nat, k: nat)
    ensures Cleared(x, k) == Cleared(a, k) <==> Cleared(a, k) <= x < Cleared(a, k) + BlockSize(k)
    decreases k
  {
    if k > 0 {
      ClearedIsInterval(x / 2, a / 2, k - 1);
    }
  }

  /** A range row covers the contiguous block of 2^(32 - len) addresses from its base on. */
  lemma RangeIsInterval(addr: Address, len: Length, x: Address)
    ensures var base := GetBaseIp(addr, len);
            Covers(Range(addr, len), x) <==> base <= x < base + BlockSize(32 - len)
  {
    hide Cleared, Leading, BlockSize;
    MaskedIsLeading(x, addr, 32 - len);
    ClearedIsInterval(x, addr, 32 - len);
  }

  /** A parsed row and a masked lookup meet exactly on the addresses the line covers. */
  lemma RowMatches(line: Line, x: Address)
    ensures match ParseRow(line)
            case None => !Covers(line, x)
            case Some(row) => GetBaseIp(x, row.prefixLength) == row.baseIp <==> Covers(line, x)
  {
    hide Leading;
    match line {
      case Comment =>
      case Range(addr, len) => MaskedIsLeading(x, addr, 32 - len);
      case Single(addr) =>
    }
  }

  // ---- The index ----

  datatype Index = Index(prefixLengths: seq<Length>, ipsByPrefixLength: map<Length, set<Address>>) {

    /** Lookup never meets a prefix length without an entry. */
    predicate Valid() {
      forall i :: 0 <= i < |prefixLengths| ==> prefixLengths[i] in ipsByPrefixLength
    }

    ghost predicate Hits(x: Address)
      requires Valid()
    {
      exists i :: 0 <= i < |prefixLengths| && GetBaseIp(x, prefixLengths[i]) in ipsByPrefixLength[prefixLengths[i]]
    }

    /** Every entry is listed, so that `Hits` misses nothing. */
    predicate Complete() {
      forall len <- ipsByPrefixLength :: len in prefixLengths
    }

    function With(line: Line): Index {
      match ParseRow(line)
      case None => this
      case Some(row) =>
        var len := row.prefixLength;
        if len in ipsByPrefixLength then
          Index(prefixLengths, ipsByPrefixLength[len := ipsByPrefixLength[len] + {row.baseIp}])
        else
          Index(prefixLengths + [len], ipsByPrefixLength[len := {row.baseIp}])
    }
  }

  const NOTHING := Index([], map[])

  function Built(lines: seq<Line>): Index {
    if lines == [] then NOTHING else Built(lines[..|lines| - 1]).With(lines[|lines| - 1])
  }

  lemma WithKeeps(index: Index, line: Line)
    requires index.Valid() && index.Complete()
    ensures index.With(line).Valid() && index.With(line).Complete()
  {
    hide GetBaseIp;
  }

  /** Looking up by masked address over the listed lengths. */
  lemma HitsAre(index: Index, x: Address)
    requires index.Valid() && index.Complete()
    ensures index.Hits(x) <==> exists len <- index.ipsByPrefixLength ::
              GetBaseIp(x, len) in index.ipsByPrefixLength[len]
  {
    hide GetBaseIp;
    if len :| len in index.ipsByPrefixLength && GetBaseIp(x, len) in index.ipsByPrefixLength[len] {
      var i :| 0 <= i < |index.prefixLengths| && index.prefixLengths[i] == len;
      assert index.Hits(x);
    }
  }

  lemma WithHits(index: Index, line: Line, x: Address)
    requires index.Valid() && index.Complete()
    ensures index.With(line).Valid() && index.With(line).Complete()
    ensures index.With(line).Hits(x) <==> index.Hits(x) || Covers(line, x)
  {
    hide GetBaseIp, Covers;
    WithKeeps(index, line);
    HitsAre(index, x);
    HitsAre(index.With(line), x);
    RowMatches(line, x);
    var index' := index.With(line);
    if row: Row :| ParseRow(line) == Some(row) {
      var len := row.prefixLength;
      assert len in index'.ipsByPrefixLength && row.baseIp in index'.ipsByPrefixLength[len];
      assert forall other <- index.ipsByPrefixLength ::
               index.ipsByPrefixLength[other] <= index'.ipsByPrefixLength[other];
    }
  }

  /** The index agrees with the linear scan on every address, whatever the order of the
      rows and however often they repeat. */
  lemma {:induction false} IndexIsScan(lines: seq<Line>, x: Address)
    ensures Built(lines).Valid() && Built(lines).Complete()
    ensures Built(lines).Hits(x) <==> Listed(lines, x)
  {
    hide Covers;
    if lines != [] {
      var init, last := lines[..|lines| - 1], lines[|lines| - 1];
      IndexIsScan(init, x);
      WithHits(Built(init), last, x);
      if i :| 0 <= i < |lines| && Covers(lines[i], x) {
        assert i < |init| ==> init[i] == lines[i];
      }
      if i :| 0 <= i < |init| && Covers(init[i], x) {
        assert lines[i] == init[i];
      }
    }
  }

  // ---- The objects ----

  class IPBlocklist {
    var prefixLengths: seq<Length>
    var ipsByPrefixLength: map<Length, set<Address>>
    const listPath: string
    const logOnly: bool

    function View(): Index
      reads this
    {
      Index(prefixLengths, ipsByPrefixLength)
    }

    constructor (listPath: string, logOnly: bool)
      ensures View() == NOTHING && this.listPath == listPath && this.logOnly == logOnly
    {
      this.listPath, this.logOnly := listPath, logOnly;
      prefixLengths, ipsByPrefixLength := [], map[];
    }

    method Load(lines: seq<Line>)
      modifies this
      ensures View() == Built(lines)
      ensures View().Valid() && forall x :: View().Hits(x) <==> Listed(lines, x)
    {
      var newPrefixLengths: seq<Length> := [];
      var newIpsByPrefixLength: map<Length, set<Address>> := map[];
      hide GetBaseIp;
      assert lines[..|lines|] == lines;
      for i := 0 to |lines|
        invariant Index(newPrefixLengths, newIpsByPrefixLength) == Built(lines[..i])
      {
        assert lines[..i + 1][..i] == lines[..i] && lines[..i + 1][i] == lines[i];
        var parsed := ParseRow(lines[i]);
        if parsed.Some? {
          var Row(baseIp, len) := parsed.value;
          if len !in newIpsByPrefixLength {
            newPrefixLengths := newPrefixLengths + [len];
            newIpsByPrefixLength := newIpsByPrefixLength[len := {}];
          }
          newIpsByPrefixLength := newIpsByPrefixLength[len := newIpsByPrefixLength[len] + {baseIp}];
          assert {} + {baseIp} == {baseIp};
        }
        assert newIpsByPrefixLength == Built(lines[..i]).With(lines[i]).ipsByPrefixLength;
      }
      ipsByPrefixLength := newIpsByPrefixLength;
      prefixLengths := newPrefixLengths;
      IndexIsScan(lines, 0);
      forall x ensures View().Valid() && (View().Hits(x) <==> Listed(lines, x)) {
        IndexIsScan(lines, x);
      }
    }

    method Contains(x: Address) returns (result: bool)
      requires View().Valid()
      ensures result <==> View().Hits(x)
    {
      hide GetBaseIp;
      for i := 0 to |prefixLengths|
        invariant forall j :: 0 <= j < i ==> GetBaseIp(x, prefixLengths[j]) !in ipsByPrefixLength[prefixLengths[j]]
      {
        if GetBaseIp(x, prefixLengths[i]) in ipsByPrefixLength[prefixLengths[i]] {
          return true;
        }
      }
      return false;
    }
  }

  class IPBlocklistManager {
    var ipBlocklists: seq<IPBlocklist>

    constructor ()
      ensures ipBlocklists == []
    {
      ipBlocklists := [];
    }

    /** Found means found in a list that is not log-only; every list that hits is noted. */
    method Contains(x: Address) returns (found: bool, listhitPaths: seq<string>)
      requires forall list <- ipBlocklists :: list.View().Valid()
      ensures found <==> exists list <- ipBlocklists :: !list.logOnly && list.View().Hits(x)
      ensures forall path :: path in listhitPaths <==>
                exists list <- ipBlocklists :: list.listPath == path && list.View().Hits(x)
    {
      hide Index.Hits;
      found, listhitPaths := false, [];
      for i := 0 to |ipBlocklists|
        invariant found <==> exists list <- ipBlocklists[..i] :: !list.logOnly && list.View().Hits(x)
        invariant forall path :: path in listhitPaths <==>
                    exists list <- ipBlocklists[..i] :: list.listPath == path && list.View().Hits(x)
      {
        assert ipBlocklists[..i + 1] == ipBlocklists[..i] + [ipBlocklists[i]];
        var contains := ipBlocklists[i].Contains(x);
        if contains {
          if !found && !ipBlocklists[i].logOnly {
            found := true;
          }
          listhitPaths := listhitPaths + [ipBlocklists[i].listPath];
        }
      }
      assert ipBlocklists[..|ipBlocklists|] == ipBlocklists;
    }
  }

  // ---- Reloading while lookups go on ----

  /** A load in progress: its file's lines, how many are processed, and the index so far. */
  datatype Loading = Loading(lines: seq<Line>, done: nat, index: Index)

  /** The blocklist between turns of the event loop; several loads may be under way. */
  datatype System = System(live: Index, loads: map<nat, Loading>)

  /** One turn: a load reads its file, processes a row, or swaps its index in; or the list
      is cleared. An event that is not enabled changes nothing. */
  datatype Event = Begin(id: nat, lines: seq<Line>) | Process(id: nat) | Swap(id: nat) | Clear

  predicate CanProcess(s: System, id: nat) {
    id in s.loads && s.loads[id].done < |s.loads[id].lines|
  }

  predicate CanSwap(s: System, id: nat) {
    id in s.loads && s.loads[id].done == |s.loads[id].lines|
  }

  function Turn(s: System, event: Event): System {
    match event
    case Begin(id, lines) => if id in s.loads then s else s.(loads := s.loads[id := Loading(lines, 0, NOTHING)])
    case Process(id) =>
      if !CanProcess(s, id) then s
      else
        var Loading(lines, done, index) := s.loads[id];
        s.(loads := s.loads[id := Loading(lines, done + 1, index.With(lines[done]))])
    case Swap(id) =>
      if !CanSwap(s, id) then s else System(s.loads[id].index, s.loads - {id})
    case Clear => s.(live := NOTHING)
  }

  function Run(events: seq<Event>): System {
    if events == [] then System(NOTHING, map[]) else Turn(Run(events[..|events| - 1]), events[|events| - 1])
  }

  /** The lines of the load that finished last, if the list was not cleared since. */
  function Current(events: seq<Event>): seq<Line> {
    if events == [] then []
    else
      var init := events[..|events| - 1];
      match events[|events| - 1]
      case Swap(id) => if CanSwap(Run(init), id) then Run(init).loads[id].lines else Current(init)
      case Clear => []
      case _ => Current(init)
  }

  predicate OnTrack(load: Loading) {
    load.done <= |load.lines| && load.index == Built(load.lines[..load.done])
  }

  lemma TurnOnTrack(s: System, event: Event)
    requires forall id <- s.loads :: OnTrack(s.loads[id])
    ensures forall id <- Turn(s, event).loads :: OnTrack(Turn(s, event).loads[id])
  {
    if event.Process? && CanProcess(s, event.id) {
      var Loading(lines, done, _) := s.loads[event.id];
      assert lines[..done + 1][..done] == lines[..done];
    }
  }

  lemma {:induction false} LiveIsBuilt(events: seq<Event>)
    ensures Run(events).live == Built(Current(events))
    ensures forall id <- Run(events).loads :: OnTrack(Run(events).loads[id])
  {
    hide Built;
    EmptyBuilt();
    if events != [] {
      var init, last := events[..|events| - 1], events[|events| - 1];
      LiveIsBuilt(init);
      TurnOnTrack(Run(init), last);
      if last.Swap? && CanSwap(Run(init), last.id) {
        var load := Run(init).loads[last.id];
        assert OnTrack(load) && load.lines[..load.done] == load.lines;
      }
    }
  }

  lemma EmptyBuilt()
    ensures Built([]) == NOTHING
  {
  }

  /** However loads, clears and lookups interleave, a lookup answers for one complete file:
      the one whose load finished last. */
  lemma ReloadIsAtomic(events: seq<Event>, x: Address)
    ensures Run(events).live.Valid()
    ensures Run(events).live.Hits(x) <==> Listed(Current(events), x)
  {
    hide Run, Current, Built, Listed;
    LiveIsBuilt(events);
    IndexIsScan(Current(events), x);
  }

  // ---- From the events alone ----

  /** The event is about the load `id`. */
  predicate Mentions(event: Event, id: nat) {
    match event
    case Begin(id', _) => id' == id
    case Process(id') => id' == id
    case Swap(id') => id' == id
    case Clear => false
  }

  /** How many rows the events process for the load. */
  function Rows(events: seq<Event>, id: nat): nat {
    if events == [] then 0
    else Rows(events[..|events| - 1], id) + if events[|events| - 1] == Process(id) then 1 else 0
  }

  lemma {:induction false} Unheard(events: seq<Event>, id: nat)
    requires forall i :: 0 <= i < |events| ==> !Mentions(events[i], id)
    ensures id !in Run(events).loads
  {
    if events != [] {
      Unheard(events[..|events| - 1], id);
    }
  }

  lemma RunExtends(events: seq<Event>, event: Event, id: nat)
    ensures Run(events + [event]) == Turn(Run(events), event)
    ensures event == Swap(id) ==>
              Current(events + [event]) ==
                if CanSwap(Run(events), id) then Run(events).loads[id].lines else Current(events)
    ensures !event.Swap? && !event.Clear? ==> Current(events + [event]) == Current(events)
    ensures Rows(events + [event], id) == Rows(events, id) + if event == Process(id) then 1 else 0
  {
    hide Turn;
    assert (events + [event])[..|events|] == events;
  }

  /** A load that has begun is as far as rows were processed for it, whatever else goes on. */
  lemma {:induction false} LoadAdvances(before: seq<Event>, id: nat, lines: seq<Line>, mid: seq<Event>)
    requires forall i :: 0 <= i < |before| ==> !Mentions(before[i], id)
    requires forall i :: 0 <= i < |mid| ==> mid[i] != Swap(id)
    ensures var loads := Run(before + [Begin(id, lines)] + mid).loads;
            id in loads && loads[id].lines == lines
            && loads[id].done == if Rows(mid, id) < |lines| then Rows(mid, id) else |lines|
  {
    hide Run, Current, Rows, Index.With;
    if mid == [] {
      Unheard(before, id);
      RunExtends(before, Begin(id, lines), id);
      assert before + [Begin(id, lines)] + mid == before + [Begin(id, lines)] && Rows([], id) == 0 by { NoRows(id); }
    } else {
      var init, last := mid[..|mid| - 1], mid[|mid| - 1];
      LoadAdvances(before, id, lines, init);
      RunExtends(before + [Begin(id, lines)] + init, last, id);
      RunExtends(init, last, id);
      assert before + [Begin(id, lines)] + init + [last] == before + [Begin(id, lines)] + mid && init + [last] == mid;
    }
  }

  lemma NoRows(id: nat)
    ensures Rows([], id) == 0
  {
  }

  lemma {:induction false} CurrentStays(events: seq<Event>, rest: seq<Event>)
    requires forall i :: 0 <= i < |rest| ==> !rest[i].Swap? && !rest[i].Clear?
    ensures Current(events + rest) == Current(events)
  {
    hide Run, Current;
    if rest == [] {
      assert events + rest == events;
    } else {
      var init, last := rest[..|rest| - 1], rest[|rest| - 1];
      CurrentStays(events, init);
      RunExtends(events + init, last, 0);
      assert events + init + [last] == events + rest;
    }
  }

  /** A load that was begun is swapped in exactly when all its rows have been processed, and the list
      then answers for its rows until the next swap or clear; before that the swap changes nothing. */
  lemma LoadBecomesLive(before: seq<Event>, id: nat, lines: seq<Line>, mid: seq<Event>, rest: seq<Event>, x: Address)
    requires forall i :: 0 <= i < |before| ==> !Mentions(before[i], id)
    requires forall i :: 0 <= i < |mid| ==> mid[i] != Swap(id)
    requires forall i :: 0 <= i < |rest| ==> !rest[i].Swap? && !rest[i].Clear?
    ensures var started := before + [Begin(id, lines)] + mid;
            var live := Run(started + [Swap(id)] + rest).live;
            && live.Valid()
            && (Rows(mid, id) >= |lines| ==> (live.Hits(x) <==> Listed(lines, x)))
            && (Rows(mid, id) < |lines| ==> (live.Hits(x) <==> Listed(Current(started), x)))
  {
    hide Run, Current, Listed, Rows, Index.Hits;
    var started := before + [Begin(id, lines)] + mid;
    LoadAdvances(before, id, lines, mid);
    RunExtends(started, Swap(id), id);
    CurrentStays(started + [Swap(id)], rest);
    ReloadIsAtomic(started + [Swap(id)] + rest, x);
  }
}
