/** The display records and graph points the hook keeps, how the refresh flow
    builds them from the contract's record metadata, and how a decryption is
    merged into them. */
module Records {
  import opened Wrappers
  import opened Radix

  /** A JavaScript number as it can arise here: an integer, or NaN (`Number(undefined)`). */
  datatype JsNumber = Finite(value: int) | NaN

  /** `ConsumptionRecord.consumption: number | string`. */
  datatype Amount = Masked(text: string) | Number(num: JsNumber)

  /** `ConsumptionRecord` (`isDecrypted` is always set by the hook). */
  datatype ConsumptionRecord = ConsumptionRecord(
    id: int, timestamp: string, consumption: Amount, peak: bool,
    reason: string, encrypted: bool, isDecrypted: bool)

  /** `ConsumptionDataPoint`. */
  datatype ConsumptionDataPoint = ConsumptionDataPoint(time: string, consumption: JsNumber, encrypted: bool)

  /** What `getRecordMetadata(i)` returns: timestamp (seconds), submitter, exists. */
  datatype Metadata = Metadata(timestamp: int, submitter: string, present: bool)  // `present` is the `exists` flag

  /** The local-time fields `Date` reports for a timestamp (`getMonth` is 0-based). */
  datatype LocalTime = LocalTime(year: int, month: int, date: int, hours: int, minutes: int)

  /** A plaintext as the decryption service returns it. */
  datatype ClearValue = ClearInt(n: int) | ClearBool(b: bool)

  const MASK: string := "******"
  const ENCRYPTED_REASON: string := "Encrypted data"
  const DECRYPTED_REASON: string := "Decrypted data"

  // ---------------------------------------------------------------- labels

  /** `pad`: the decimal digits of `n`, left-padded with '0' to two characters. */
  function Pad2(n: int): (s: string)
    ensures |s| >= 2
  {
    PadStart(ToRadixString(n, 10), 2, '0')
  }

  /** Every two-digit clock field pads to exactly two decimal digits that read back as itself. */
  lemma Pad2Reads(n: int)
    requires 0 <= n < 100
    ensures |Pad2(n)| == 2 && AllDigits(Pad2(n), 10) && Value(Pad2(n), 10) == n
  {
    var d := Digits(n, 10);
    DigitsLength(n, 10, 2);
    assert Pow(10, 2) == 100;
    ValueOfDigits(n, 10);
    ValueIgnoresLeadingZeros(2 - |d|, d, 10);
    assert Pad2(n) == Repeat('0', 2 - |d|) + d;
  }

  /** The graph label `HH:MM`. */
  function TimeLabel(t: LocalTime): (s: string)
    ensures |s| >= 5
  {
    Pad2(t.hours) + ":" + Pad2(t.minutes)
  }

  /** The record label `YYYY-MM-DD HH:MM` (month shifted to 1-based). */
  function DateLabel(t: LocalTime): (s: string)
    ensures |s| >= 13
  {
    ToRadixString(t.year, 10) + "-" + Pad2(t.month + 1) + "-" + Pad2(t.date) + " " + TimeLabel(t)
  }

  /** For a real clock reading the time label is five characters, the hours and
      the minutes in two digits each around a colon. */
  lemma TimeLabelReads(t: LocalTime)
    requires 0 <= t.hours < 24 && 0 <= t.minutes < 60
    ensures var s := TimeLabel(t);
            |s| == 5 && s[2] == ':' && AllDigits(s[..2], 10) && AllDigits(s[3..], 10)
            && Value(s[..2], 10) == t.hours && Value(s[3..], 10) == t.minutes
  {
    Pad2Reads(t.hours);
    Pad2Reads(t.minutes);
    SplitAtColon(Pad2(t.hours), Pad2(t.minutes));
  }

  lemma SplitAtColon(a: string, b: string)
    requires |a| == 2
    ensures var s := a + ":" + b;
            |s| == 3 + |b| && s[2] == ':' && s[..2] == a && s[3..] == b
  {
    var s := a + ":" + b;
    assert s[..2] == a;
    assert s[3..] == b;
  }

  /** The record label and the graph label of one timestamp. */
  datatype Stamp = Stamp(date: string, time: string)

  function Labels(t: LocalTime): Stamp {
    Stamp(DateLabel(t), TimeLabel(t))
  }

  /** The labels of a timestamp in seconds, given the host's local-time conversion. */
  function LabelsOf(toLocal: int -> LocalTime): int -> Stamp {
    ts => Labels(toLocal(ts))
  }

  // ---------------------------------------------------------------- record shapes

  /** The masked record the refresh flow emits for index `id`. */
  function Placeholder(id: nat, s: Stamp): (r: ConsumptionRecord)
    ensures Sealed(r) && r.id == id && r.timestamp == s.date
  {
    ConsumptionRecord(id, s.date, Masked(MASK), false, ENCRYPTED_REASON, true, false)
  }

  /** The graph point the refresh flow emits beside it. */
  function PlaceholderPoint(s: Stamp): (p: ConsumptionDataPoint)
    ensures p.encrypted && p.time == s.time && p.consumption == Finite(0)
  {
    ConsumptionDataPoint(s.time, Finite(0), true)
  }

  /** A record still showing its mask. */
  predicate Sealed(r: ConsumptionRecord) {
    r.encrypted && !r.isDecrypted && r.consumption == Masked(MASK) && !r.peak && r.reason == ENCRYPTED_REASON
  }

  /** A record showing decrypted values. */
  predicate Opened(r: ConsumptionRecord) {
    r.encrypted && r.isDecrypted && r.consumption.Number? && r.reason == DECRYPTED_REASON
  }

  function Ids(rs: seq<ConsumptionRecord>): (ids: seq<int>)
    ensures |ids| == |rs| && forall j :: 0 <= j < |rs| ==> ids[j] == rs[j].id
  {
    seq(|rs|, j requires 0 <= j < |rs| => rs[j].id)
  }

  /** The invariant of the hook's two lists: they run in parallel, record ids
      are non-negative and strictly ascending, every record is sealed or opened,
      every graph point is flagged encrypted. */
  predicate WellFormed(rs: seq<ConsumptionRecord>, gs: seq<ConsumptionDataPoint>) {
    && |rs| == |gs|
    && (forall j :: 0 <= j < |rs| ==> rs[j].id >= 0 && (Sealed(rs[j]) || Opened(rs[j])))
    && (forall j, k :: 0 <= j < k < |rs| ==> rs[j].id < rs[k].id)
    && (forall j :: 0 <= j < |gs| ==> gs[j].encrypted)
  }

  /** Record `j` sits at position `j`: what the refresh flow yields when it kept every index. */
  predicate Aligned(rs: seq<ConsumptionRecord>) {
    forall j :: 0 <= j < |rs| ==> rs[j].id == j
  }

  // ---------------------------------------------------------------- refresh construction

  datatype Lists = Lists(records: seq<ConsumptionRecord>, points: seq<ConsumptionDataPoint>)

  /** Index `i` yields a record: its metadata read answered, says it exists (`present`), and
      the chain was still the same when the entry was examined. */
  predicate Kept(metadata: nat -> Reply<Metadata>, sameChainAt: nat -> bool, i: nat)
    ensures Kept(metadata, sameChainAt, i) ==> metadata(i).Answer? && sameChainAt(i)
  {
    metadata(i).Answer? && metadata(i).value.present && sameChainAt(i)
  }

  /** The lists the refresh loop has built after examining indices `[0, n)`,
      or `Throws` once a metadata read has thrown. */
  function Collect(n: nat, metadata: nat -> Reply<Metadata>, sameChainAt: nat -> bool,
                   stamp: int -> Stamp): (r: Reply<Lists>)
    ensures r.Answer? ==> |r.value.records| == |r.value.points| <= n
  {
    if n == 0 then Answer(Lists([], []))
    else
      match Collect(n - 1, metadata, sameChainAt, stamp)
      case Throws => Throws
      case Answer(l) =>
        match metadata(n - 1)
        case Throws => Throws
        case Answer(m) =>
          if Kept(metadata, sameChainAt, n - 1) then
            var t := stamp(m.timestamp);
            Answer(Lists(l.records + [Placeholder(n - 1, t)], l.points + [PlaceholderPoint(t)]))
          else Answer(l)
  }

  /** Appending a sealed record with a larger id, and an encrypted point, keeps the lists well formed. */
  lemma AppendKeepsWellFormed(rs: seq<ConsumptionRecord>, gs: seq<ConsumptionDataPoint>,
                              r: ConsumptionRecord, g: ConsumptionDataPoint)
    requires WellFormed(rs, gs) && Sealed(r) && r.id >= 0 && g.encrypted
    requires forall j :: 0 <= j < |rs| ==> rs[j].id < r.id
    ensures WellFormed(rs + [r], gs + [g])
  {
    var rs', gs' := rs + [r], gs + [g];
    assert forall j :: 0 <= j < |rs| ==> rs'[j] == rs[j];
    assert rs'[|rs|] == r;
    assert forall j :: 0 <= j < |gs| ==> gs'[j] == gs[j];
  }

  /** One step of the loop: index `i` either adds its placeholder pair or is skipped. */
  lemma CollectStep(i: nat, metadata: nat -> Reply<Metadata>, sameChainAt: nat -> bool, stamp: int -> Stamp)
    requires Collect(i, metadata, sameChainAt, stamp).Answer? && metadata(i).Answer?
    ensures var l := Collect(i, metadata, sameChainAt, stamp).value;
            var m := metadata(i).value;
            var t := stamp(m.timestamp);
            Collect(i + 1, metadata, sameChainAt, stamp)
              == Answer(if Kept(metadata, sameChainAt, i)
                        then Lists(l.records + [Placeholder(i, t)], l.points + [PlaceholderPoint(t)])
                        else l)
  {
  }

  /** The loop's lists are well formed, every id is below the count, and every
      record is still masked. */
  lemma {:induction false} CollectWellFormed(n: nat, metadata: nat -> Reply<Metadata>,
                                             sameChainAt: nat -> bool, stamp: int -> Stamp)
    requires Collect(n, metadata, sameChainAt, stamp).Answer?
    ensures var l := Collect(n, metadata, sameChainAt, stamp).value;
            && WellFormed(l.records, l.points)
            && (forall j :: 0 <= j < |l.records| ==> l.records[j].id < n && Sealed(l.records[j]))
  {
    if n > 0 {
      CollectAnswered(n, metadata, sameChainAt, stamp);
      CollectWellFormed(n - 1, metadata, sameChainAt, stamp);
      CollectStep(n - 1, metadata, sameChainAt, stamp);
      var prev := Collect(n - 1, metadata, sameChainAt, stamp).value;
      var l := Collect(n, metadata, sameChainAt, stamp).value;
      if Kept(metadata, sameChainAt, n - 1) {
        var t := stamp(metadata(n - 1).value.timestamp);
        AppendKeepsWellFormed(prev.records, prev.points, Placeholder(n - 1, t), PlaceholderPoint(t));
        assert l == Lists(prev.records + [Placeholder(n - 1, t)], prev.points + [PlaceholderPoint(t)]);
        assert forall j :: 0 <= j < |prev.records| ==> l.records[j] == prev.records[j];
      } else {
        assert l == prev;
      }
    }
  }

  /** A thrown metadata read ends the loop: once thrown, still thrown. */
  lemma {:induction false} CollectThrowsOnward(i: nat, n: nat, metadata: nat -> Reply<Metadata>,
                                               sameChainAt: nat -> bool, stamp: int -> Stamp)
    requires i <= n && Collect(i, metadata, sameChainAt, stamp).Throws?
    ensures Collect(n, metadata, sameChainAt, stamp).Throws?
    decreases n
  {
    if i < n { CollectThrowsOnward(i, n - 1, metadata, sameChainAt, stamp); }
  }

  /** The loop throws exactly when some metadata read below `n` throws. */
  lemma {:induction false} CollectThrows(n: nat, metadata: nat -> Reply<Metadata>,
                                         sameChainAt: nat -> bool, stamp: int -> Stamp)
    ensures Collect(n, metadata, sameChainAt, stamp).Throws? <==>
              exists i :: 0 <= i < n && metadata(i).Throws?
  {
    if n > 0 {
      CollectThrows(n - 1, metadata, sameChainAt, stamp);
    }
  }

  /** What the loop has built after examining indices `[0, n)`: one record per kept
      index, in ascending order, each the masked placeholder for its index and its
      metadata's time, with a placeholder graph point for the same time at the same
      position. */
  ghost predicate Built(l: Lists, n: nat, metadata: nat -> Reply<Metadata>,
                        sameChainAt: nat -> bool, stamp: int -> Stamp)
  {
    && |l.points| == |l.records|
    && (forall i: int :: i in Ids(l.records) <==> 0 <= i < n && Kept(metadata, sameChainAt, i))
    && (forall j :: 0 <= j < |l.records| ==>
          var i := l.records[j].id;
          0 <= i < n && Kept(metadata, sameChainAt, i)
          && l.records[j] == Placeholder(i, stamp(metadata(i).value.timestamp))
          && l.points[j] == PlaceholderPoint(stamp(metadata(i).value.timestamp)))
  }

  /** A kept index `n` extends what was built with its placeholder pair. */
  lemma BuiltKeep(l: Lists, n: nat, metadata: nat -> Reply<Metadata>,
                  sameChainAt: nat -> bool, stamp: int -> Stamp)
    requires Built(l, n, metadata, sameChainAt, stamp) && Kept(metadata, sameChainAt, n)
    ensures var t := stamp(metadata(n).value.timestamp);
            Built(Lists(l.records + [Placeholder(n, t)], l.points + [PlaceholderPoint(t)]),
                  n + 1, metadata, sameChainAt, stamp)
  {
    var t := stamp(metadata(n).value.timestamp);
    var rs := l.records + [Placeholder(n, t)];
    assert Ids(rs) == Ids(l.records) + [n];
    assert forall j :: 0 <= j < |l.records| ==> rs[j] == l.records[j];
  }

  /** An index `n` that is not kept leaves what was built as it was. */
  lemma BuiltSkip(l: Lists, n: nat, metadata: nat -> Reply<Metadata>,
                  sameChainAt: nat -> bool, stamp: int -> Stamp)
    requires Built(l, n, metadata, sameChainAt, stamp) && !Kept(metadata, sameChainAt, n)
    ensures Built(l, n + 1, metadata, sameChainAt, stamp)
  {
  }

  /** An answered loop over `[0, n)` answered over `[0, n - 1)` and read index `n - 1`. */
  lemma CollectAnswered(n: nat, metadata: nat -> Reply<Metadata>, sameChainAt: nat -> bool, stamp: int -> Stamp)
    requires n > 0 && Collect(n, metadata, sameChainAt, stamp).Answer?
    ensures Collect(n - 1, metadata, sameChainAt, stamp).Answer? && metadata(n - 1).Answer?
  {
  }

  /** What the loop builds, for every count whose metadata reads all answered. */
  lemma {:induction false} CollectContents(n: nat, metadata: nat -> Reply<Metadata>,
                                           sameChainAt: nat -> bool, stamp: int -> Stamp)
    requires Collect(n, metadata, sameChainAt, stamp).Answer?
    ensures Built(Collect(n, metadata, sameChainAt, stamp).value, n, metadata, sameChainAt, stamp)
  {
    if n > 0 {
      CollectAnswered(n, metadata, sameChainAt, stamp);
      CollectContents(n - 1, metadata, sameChainAt, stamp);
      CollectStep(n - 1, metadata, sameChainAt, stamp);
      var prev := Collect(n - 1, metadata, sameChainAt, stamp).value;
      var l := Collect(n, metadata, sameChainAt, stamp).value;
      if Kept(metadata, sameChainAt, n - 1) {
        var t := stamp(metadata(n - 1).value.timestamp);
        BuiltKeep(prev, n - 1, metadata, sameChainAt, stamp);
        assert l == Lists(prev.records + [Placeholder(n - 1, t)], prev.points + [PlaceholderPoint(t)]);
      } else {
        BuiltSkip(prev, n - 1, metadata, sameChainAt, stamp);
        assert l == prev;
      }
    }
  }

  /** When every index below `n` is kept, the loop yields `n` records and record
      `j` has id `j`. */
  lemma {:induction false} CollectAllKept(n: nat, metadata: nat -> Reply<Metadata>,
                                          sameChainAt: nat -> bool, stamp: int -> Stamp)
    requires forall i: nat :: i < n ==> Kept(metadata, sameChainAt, i)
    ensures Collect(n, metadata, sameChainAt, stamp).Answer?
    ensures |Collect(n, metadata, sameChainAt, stamp).value.records| == n
    ensures Aligned(Collect(n, metadata, sameChainAt, stamp).value.records)
  {
    if n > 0 {
      CollectAllKept(n - 1, metadata, sameChainAt, stamp);
      assert Kept(metadata, sameChainAt, n - 1);
      var prev := Collect(n - 1, metadata, sameChainAt, stamp).value.records;
      var r := Placeholder(n - 1, stamp(metadata(n - 1).value.timestamp));
      var l := Collect(n, metadata, sameChainAt, stamp).value.records;
      assert l == prev + [r];
      forall j | 0 <= j < |l| ensures l[j].id == j {
        if j < |prev| { assert l[j] == prev[j]; } else { assert l[j] == r; }
      }
    }
  }

  // ---------------------------------------------------------------- decrypt merge

  /** `Number(x)` of a looked-up plaintext (`undefined` when the key is absent). */
  function ToNumber(v: Option<ClearValue>): (r: JsNumber)
    ensures r.NaN? <==> v.None?
    ensures v.Some? && v.value.ClearInt? ==> r == Finite(v.value.n)
  {
    match v
    case None => NaN
    case Some(ClearInt(n)) => Finite(n)
    case Some(ClearBool(b)) => Finite(if b then 1 else 0)
  }

  /** `Boolean(x)` of a looked-up plaintext. */
  function ToBoolean(v: Option<ClearValue>): (r: bool)
    ensures r <==> v.Some? && v.value != ClearInt(0) && v.value != ClearBool(false)
  {
    match v
    case None => false
    case Some(ClearInt(n)) => n != 0
    case Some(ClearBool(b)) => b
  }

  /** The record with decrypted values shown. */
  function Reveal(r: ConsumptionRecord, consumption: JsNumber, peak: bool): (o: ConsumptionRecord)
    ensures Sealed(r) || Opened(r) ==> Opened(o)
    ensures o.id == r.id && o.timestamp == r.timestamp && o.encrypted == r.encrypted
    ensures o.consumption == Number(consumption) && o.peak == peak
  {
    r.(consumption := Number(consumption), peak := peak, reason := DECRYPTED_REASON, isDecrypted := true)
  }

  /** The record update of a successful decrypt: every record whose id is `id`
      is revealed, every other record is left as it was. */
  function MergeRecords(rs: seq<ConsumptionRecord>, id: int, consumption: JsNumber, peak: bool): (r: seq<ConsumptionRecord>)
    ensures |r| == |rs|
    ensures Ids(r) == Ids(rs)
  {
    seq(|rs|, j requires 0 <= j < |rs| => if rs[j].id == id then Reveal(rs[j], consumption, peak) else rs[j])
  }

  /** The graph update of a successful decrypt: the point at POSITION `index` gets the consumption. */
  function MergeGraph(gs: seq<ConsumptionDataPoint>, index: int, consumption: JsNumber): (r: seq<ConsumptionDataPoint>)
    ensures |r| == |gs|
  {
    seq(|gs|, j requires 0 <= j < |gs| => if j == index then gs[j].(consumption := consumption) else gs[j])
  }

  /** Only record `id` changes: with distinct ids at most one position differs,
      it holds the record with that id, keeps its id, time and encrypted flag,
      and now shows the decrypted values. */
  lemma MergeRecordsFrame(rs: seq<ConsumptionRecord>, id: int, consumption: JsNumber, peak: bool)
    requires forall j, k :: 0 <= j < k < |rs| ==> rs[j].id < rs[k].id
    ensures var r := MergeRecords(rs, id, consumption, peak);
            && (forall j :: 0 <= j < |rs| && rs[j].id != id ==> r[j] == rs[j])
            && (forall j :: 0 <= j < |rs| && rs[j].id == id ==>
                  && r[j].id == id && r[j].timestamp == rs[j].timestamp && r[j].encrypted == rs[j].encrypted
                  && r[j].consumption == Number(consumption) && r[j].peak == peak
                  && r[j].reason == DECRYPTED_REASON && r[j].isDecrypted
                  && forall k :: 0 <= k < |rs| && k != j ==> r[k] == rs[k])
  {
  }

  /** Decrypting an id that no record has leaves the records as they were. */
  lemma MergeRecordsAbsent(rs: seq<ConsumptionRecord>, id: int, consumption: JsNumber, peak: bool)
    requires id !in Ids(rs)
    ensures MergeRecords(rs, id, consumption, peak) == rs
  {
    var r := MergeRecords(rs, id, consumption, peak);
    forall j | 0 <= j < |rs| ensures r[j] == rs[j] {
      assert Ids(rs)[j] == rs[j].id;
    }
  }

  /** Merging the same decryption twice is merging it once. */
  lemma MergeRecordsIdempotent(rs: seq<ConsumptionRecord>, id: int, consumption: JsNumber, peak: bool)
    ensures MergeRecords(MergeRecords(rs, id, consumption, peak), id, consumption, peak)
         == MergeRecords(rs, id, consumption, peak)
  {
  }

  /** A decrypted record stays decrypted through later merges. */
  lemma MergeRecordsMonotone(rs: seq<ConsumptionRecord>, id: int, consumption: JsNumber, peak: bool, j: int)
    requires 0 <= j < |rs| && rs[j].isDecrypted
    ensures MergeRecords(rs, id, consumption, peak)[j].isDecrypted
  {
  }

  /** Only the graph point at position `index` changes, and only its consumption. */
  lemma MergeGraphFrame(gs: seq<ConsumptionDataPoint>, index: int, consumption: JsNumber)
    ensures var r := MergeGraph(gs, index, consumption);
            && (forall j :: 0 <= j < |gs| && j != index ==> r[j] == gs[j])
            && (0 <= index < |gs| ==> r[index] == gs[index].(consumption := consumption))
  {
  }

  /** A decrypt merge keeps the lists well formed. */
  lemma MergeKeepsWellFormed(rs: seq<ConsumptionRecord>, gs: seq<ConsumptionDataPoint>,
                             id: int, consumption: JsNumber, peak: bool)
    requires WellFormed(rs, gs)
    ensures WellFormed(MergeRecords(rs, id, consumption, peak), MergeGraph(gs, id, consumption))
  {
    var r := MergeRecords(rs, id, consumption, peak);
    forall j, k | 0 <= j < k < |r| ensures r[j].id < r[k].id {
      assert r[j].id == rs[j].id && r[k].id == rs[k].id;
    }
  }

  /** When the lists are aligned (every index kept), the graph point the merge
      updates is the one beside the record it reveals. */
  lemma MergePairsWhenAligned(rs: seq<ConsumptionRecord>, gs: seq<ConsumptionDataPoint>,
                              id: int, consumption: JsNumber, peak: bool)
    requires WellFormed(rs, gs) && Aligned(rs)
    ensures var r := MergeRecords(rs, id, consumption, peak);
            var g := MergeGraph(gs, id, consumption);
            forall j :: 0 <= j < |rs| ==> (r[j] != rs[j] || g[j] != gs[j] ==> j == id)
  {
  }

  /** Without alignment the two updates can miss each other: with index 0 skipped,
      decrypting record 1 reveals the record at position 0 but updates no graph point. */
  lemma MergeMissesGraphWhenSkipped(t: Stamp, c: int)
    ensures var rs := [Placeholder(1, t)];
            var gs := [PlaceholderPoint(t)];
            && MergeRecords(rs, 1, Finite(c), true)[0].isDecrypted
            && MergeGraph(gs, 1, Finite(c)) == gs
  {
  }
}
