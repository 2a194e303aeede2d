/**
 The bounded observability log: numbered records in a deque of fixed capacity, two overflow
 policies that can change at run time, and cursor paging that reports how many records a reader lost.
 */
module BoundedLog {
  import opened Sequences

  datatype Policy = DropOldest | DropNew

  datatype Profile = Profile(capacity: nat, policy: Policy)

  datatype Entry<T> = Entry(sequence: nat, body: T)

  datatype Log<T> = Log(records: seq<Entry<T>>, nextSequence: nat, profile: Profile, dropped: nat)

  datatype Page<T> = Page(
    items: seq<Entry<T>>, next: nat, earliest: Option<nat>, latest: nat, lost: nat, truncated: bool, dropped: nat)

  // ---------------------------------------------------------------- the log as a value

  function Empty<T>(profile: Profile): Log<T> {
    Log([], 0, profile, 0)
  }

  predicate WillRetainNext<T>(log: Log<T>) {
    log.profile.capacity > 0 && (|log.records| < log.profile.capacity || log.profile.policy.DropOldest?)
  }

  /** A smaller capacity cuts the deque at the end that the new policy gives up. */
  function Configured<T>(log: Log<T>, profile: Profile): Log<T> {
    var excess := Max(0, |log.records| - profile.capacity);
    var left :=
      if profile.policy.DropOldest? then log.records[excess..] else log.records[..|log.records| - excess];
    Log(left, log.nextSequence, profile, log.dropped + excess)
  }

  /** Every attempt takes a number; a record that is not kept, or pushes one out, counts as dropped. */
  function Recorded<T>(log: Log<T>, body: T): Log<T> {
    var sequence := log.nextSequence + 1;
    if !WillRetainNext(log) then log.(nextSequence := sequence, dropped := log.dropped + 1)
    else if |log.records| == log.profile.capacity then
      log.(nextSequence := sequence, dropped := log.dropped + 1, records := log.records[1..] + [Entry(sequence, body)])
    else log.(nextSequence := sequence, records := log.records + [Entry(sequence, body)])
  }

  function Drained<T>(log: Log<T>): Log<T> {
    log.(records := [])
  }

  function After<T>(records: seq<Entry<T>>, cursor: nat): seq<Entry<T>> {
    if records == [] then []
    else if records[0].sequence > cursor then [records[0]] + After(records[1..], cursor)
    else After(records[1..], cursor)
  }

  function PageAfter<T>(log: Log<T>, cursor: nat, limit: nat): Page<T> {
    var found := After(log.records, cursor);
    var items := if |found| <= limit then found else found[..limit];
    var next :=
      if limit == 0 then cursor
      else if items != [] then items[|items| - 1].sequence
      else Max(cursor, log.nextSequence);
    var lost := if limit == 0 then 0 else Max(0, Max(0, next - cursor) - |items|);
    Page(items, next, if log.records == [] then None else Some(log.records[0].sequence),
         log.nextSequence, lost, log.nextSequence > next, log.dropped)
  }

  // ---------------------------------------------------------------- numbering

  ghost predicate Increasing<T>(records: seq<Entry<T>>) {
    forall i, j :: 0 <= i < j < |records| ==> records[i].sequence < records[j].sequence
  }

  ghost predicate Numbered<T>(log: Log<T>) {
    && Increasing(log.records)
    && (forall i :: 0 <= i < |log.records| ==> 0 < log.records[i].sequence <= log.nextSequence)
    && |log.records| <= log.profile.capacity
  }

  lemma ConfiguredNumbered<T>(log: Log<T>, profile: Profile)
    requires Numbered(log)
    ensures Numbered(Configured(log, profile))
  {
  }

  lemma RecordedNumbered<T>(log: Log<T>, body: T)
    requires Numbered(log)
    ensures Numbered(Recorded(log, body))
  {
  }

  // ---------------------------------------------------------------- which records are given up

  /**
   A new profile keeps as many of the records as fit, in place, and counts the others as dropped. It
   gives up the smallest numbers when the new policy drops the oldest, the largest when it drops the new.
   */
  lemma ReconfigurationKeeps<T>(log: Log<T>, profile: Profile)
    requires Numbered(log)
    ensures var left := Configured(log, profile);
      && left.profile == profile && left.nextSequence == log.nextSequence
      && |left.records| == (if |log.records| <= profile.capacity then |log.records| else profile.capacity)
      && left.dropped - log.dropped == |log.records| - |left.records|
      && (forall e :: e in left.records ==> e in log.records)
      && (forall e, kept :: e in log.records && e !in left.records && kept in left.records ==>
            if profile.policy.DropOldest? then e.sequence < kept.sequence else e.sequence > kept.sequence)
  {
    var left := Configured(log, profile);
    forall e, kept | e in log.records && e !in left.records && kept in left.records
      ensures if profile.policy.DropOldest? then e.sequence < kept.sequence else e.sequence > kept.sequence
    {
      GivenUpFromTheEnd(log, profile, e, kept);
    }
  }

  lemma SliceHolds<T>(records: seq<Entry<T>>, k: nat, m: nat, i: nat)
    requires k <= m <= |records| && i < |records|
    ensures k <= i < m ==> records[i] in records[k..m]
  {
    if k <= i < m {
      assert records[k..m][i - k] == records[i];
    }
  }

  lemma GivenUpFromTheEnd<T>(log: Log<T>, profile: Profile, e: Entry<T>, kept: Entry<T>)
    requires Numbered(log) && e in log.records
    requires e !in Configured(log, profile).records && kept in Configured(log, profile).records
    ensures if profile.policy.DropOldest? then e.sequence < kept.sequence else e.sequence > kept.sequence
  {
    var left := Configured(log, profile).records;
    var i :| 0 <= i < |log.records| && log.records[i] == e;
    var j :| 0 <= j < |left| && left[j] == kept;
    var shift := if profile.policy.DropOldest? then |log.records| - |left| else 0;
    assert kept == log.records[shift + j];
    SliceHolds(log.records, shift, shift + |left|, i);
  }

  /**
   An attempt takes the next number. Its record is kept exactly when there is room or the policy makes
   room, and then a full log gives up the record with the least number and no other; a log that is not
   full gives up nothing. Each record not kept or given up counts as dropped.
   */
  lemma RecordingGivesUp<T>(log: Log<T>, body: T)
    requires Numbered(log)
    ensures var after, added := Recorded(log, body), Entry(log.nextSequence + 1, body);
      var full := |log.records| == log.profile.capacity;
      && after.nextSequence == log.nextSequence + 1 && after.profile == log.profile
      && (added in after.records <==> log.profile.capacity > 0 && (!full || log.profile.policy.DropOldest?))
      && after.dropped == log.dropped + (if full then 1 else 0)
      && (forall e :: e in after.records && e != added ==> e in log.records)
      && (forall e :: e in log.records && e !in after.records ==>
            full && log.profile.policy.DropOldest? && forall f :: f in log.records ==> e.sequence <= f.sequence)
      && |after.records| == |log.records| + (if full then 0 else 1)
  {
    var after, added := Recorded(log, body), Entry(log.nextSequence + 1, body);
    forall e | e in log.records && e !in after.records
      ensures |log.records| == log.profile.capacity && log.profile.policy.DropOldest?
      ensures forall f :: f in log.records ==> e.sequence <= f.sequence
    {
      var i :| 0 <= i < |log.records| && log.records[i] == e;
      SliceHolds(log.records, 1, |log.records|, i);
    }
    if WillRetainNext(log) {
      assert after.records[|after.records| - 1] == added;
    }
  }

  // ---------------------------------------------------------------- one page

  /** How many of the first records are at or below the cursor. */
  function Behind<T>(records: seq<Entry<T>>, cursor: nat): (k: nat)
    ensures k <= |records|
  {
    if records == [] || records[0].sequence > cursor then 0 else 1 + Behind(records[1..], cursor)
  }

  /** In a numbered log the records after a cursor are a suffix. */
  lemma {:induction false} AfterIsSuffix<T>(records: seq<Entry<T>>, cursor: nat)
    requires Increasing(records)
    ensures After(records, cursor) == records[Behind(records, cursor)..]
    ensures forall i :: 0 <= i < |records| ==> (records[i].sequence <= cursor <==> i < Behind(records, cursor))
  {
    if records != [] {
      AfterIsSuffix(records[1..], cursor);
      if records[0].sequence > cursor {
        forall i | 0 <= i < |records| ensures records[i].sequence > cursor {
        }
        AllAfter(records, cursor);
      } else {
        forall i | 0 < i < |records| ensures records[i] == records[1..][i - 1] {
        }
      }
    }
  }

  lemma AllAfter<T>(records: seq<Entry<T>>, cursor: nat)
    requires forall i :: 0 <= i < |records| ==> records[i].sequence > cursor
    ensures After(records, cursor) == records
  {
  }

  /** The items are strictly between the cursor and the page's end, so there is room for all of them. */
  lemma {:induction false} IncreasingFits<T>(items: seq<Entry<T>>, low: nat)
    requires Increasing(items) && items != [] && items[0].sequence > low
    ensures items[|items| - 1].sequence >= low + |items|
  {
    if |items| > 1 {
      IncreasingFits(items[..|items| - 1], low);
    }
  }

  lemma PageSlice<T>(log: Log<T>, cursor: nat, limit: nat)
    requires Numbered(log) && limit > 0
    ensures var page, k := PageAfter(log, cursor, limit), Behind(log.records, cursor);
      && k + |page.items| <= |log.records| && page.items == log.records[k..k + |page.items|]
      && (page.items == [] ==> k == |log.records| && page.next >= log.nextSequence)
      && (page.items != [] ==> page.next == log.records[k + |page.items| - 1].sequence)
  {
    AfterIsSuffix(log.records, cursor);
  }

  lemma SliceRange<T>(records: seq<Entry<T>>, cursor: nat, m: nat, next: nat)
    requires Increasing(records) && Behind(records, cursor) <= m <= |records|
    requires if m > Behind(records, cursor) then next == records[m - 1].sequence
             else forall i :: 0 <= i < |records| ==> records[i].sequence <= cursor
    ensures forall i :: 0 <= i < |records| ==>
              (Behind(records, cursor) <= i < m <==> cursor < records[i].sequence <= next)
  {
    AfterIsSuffix(records, cursor);
    forall i | 0 <= i < |records|
      ensures Behind(records, cursor) <= i < m <==> cursor < records[i].sequence <= next
    {
      if m > Behind(records, cursor) && i != m - 1 {
        assert i < m - 1 ==> records[i].sequence < records[m - 1].sequence;
        assert i > m - 1 ==> records[i].sequence > records[m - 1].sequence;
      }
    }
  }

  /** The items of a page are the retained records numbered above the cursor and up to the page's end. */
  lemma PageItems<T>(log: Log<T>, cursor: nat, limit: nat)
    requires Numbered(log) && limit > 0
    ensures var page, k := PageAfter(log, cursor, limit), Behind(log.records, cursor);
      && k + |page.items| <= |log.records| && page.items == log.records[k..k + |page.items|]
      && (forall i :: 0 <= i < |log.records| ==>
            (k <= i < k + |page.items| <==> cursor < log.records[i].sequence <= page.next))
      && (page.items == [] ==> k == |log.records|)
  {
    var page, k := PageAfter(log, cursor, limit), Behind(log.records, cursor);
    PageSlice(log, cursor, limit);
    AfterIsSuffix(log.records, cursor);
    SliceRange(log.records, cursor, k + |page.items|, page.next);
  }

  /** Every number from the cursor to the page's end is an item or counted as lost; a page always moves on. */
  lemma PageCounts<T>(log: Log<T>, cursor: nat, limit: nat)
    requires Numbered(log) && limit > 0
    ensures var page := PageAfter(log, cursor, limit);
      && page.next - cursor == |page.items| + page.lost
      && |page.items| <= limit
      && cursor <= page.next <= Max(cursor, log.nextSequence)
      && (page.truncated <==> page.next < log.nextSequence)
      && (cursor < log.nextSequence ==> page.next > cursor)
      && page.latest == log.nextSequence && page.dropped == log.dropped
      && (page.earliest.None? <==> log.records == [])
      && (page.earliest.Some? ==> forall i :: 0 <= i < |log.records| ==> 0 < page.earliest.value <= log.records[i].sequence)
  {
    var page, k := PageAfter(log, cursor, limit), Behind(log.records, cursor);
    PageItems(log, cursor, limit);
    if page.items != [] {
      assert page.items[0] == log.records[k];
      assert page.next == log.records[k + |page.items| - 1].sequence;
      IncreasingFits(page.items, cursor);
    }
  }

  /**
   A page short of its limit holds every retained record above the cursor. It ends at its last item; a
   page without items ends at the last number given out, or stays where it is when the cursor is past that.
   The earliest number it reports is that of a retained record.
   */
  lemma PageIsFull<T>(log: Log<T>, cursor: nat, limit: nat)
    requires Numbered(log) && limit > 0
    ensures var page := PageAfter(log, cursor, limit);
      && (|page.items| < limit ==> forall e :: e in log.records && e.sequence > cursor ==> e in page.items)
      && (page.items != [] ==> page.next == page.items[|page.items| - 1].sequence)
      && (page.items == [] ==> page.next == if cursor < log.nextSequence then log.nextSequence else cursor)
      && (page.earliest.Some? ==> exists e :: e in log.records && e.sequence == page.earliest.value)
  {
    var page, k := PageAfter(log, cursor, limit), Behind(log.records, cursor);
    AfterIsSuffix(log.records, cursor);
    if |page.items| < limit {
      forall e | e in log.records && e.sequence > cursor ensures e in page.items {
        var i :| 0 <= i < |log.records| && log.records[i] == e;
        assert page.items[i - k] == e;
      }
    }
  }

  lemma SliceMembers<T>(records: seq<Entry<T>>, k: nat, m: nat, cursor: nat, next: nat, e: Entry<T>)
    requires k <= m <= |records|
    requires forall i :: 0 <= i < |records| ==> (k <= i < m <==> cursor < records[i].sequence <= next)
    ensures e in records[k..m] <==> e in records && cursor < e.sequence <= next
  {
  }

  /**
   A page from any cursor with a positive limit holds exactly the retained records numbered above the
   cursor and up to the page's end.
   */
  lemma PageIsExact<T>(log: Log<T>, cursor: nat, limit: nat, e: Entry<T>)
    requires Numbered(log) && limit > 0
    ensures var page := PageAfter(log, cursor, limit);
      e in page.items <==> e in log.records && cursor < e.sequence <= page.next
  {
    var page, k := PageAfter(log, cursor, limit), Behind(log.records, cursor);
    PageItems(log, cursor, limit);
    SliceMembers(log.records, k, k + |page.items|, cursor, page.next, e);
  }

  /** A limit of zero leaves the cursor where it is and reports nothing. */
  lemma EmptyPage<T>(log: Log<T>, cursor: nat)
    ensures PageAfter(log, cursor, 0).items == [] && PageAfter(log, cursor, 0).next == cursor && PageAfter(log, cursor, 0).lost == 0
  {
  }

  // ---------------------------------------------------------------- paging a log that stands still

  /** Reads page after page until a page is not truncated. */
  method Paginate<T>(log: Log<T>, start: nat, limit: nat) returns (items: seq<Entry<T>>, lost: nat)
    requires Numbered(log) && limit > 0
    ensures items == After(log.records, start)
    ensures |items| + lost == Max(0, log.nextSequence - start)
  {
    items, lost := [], 0;
    var cursor := start;
    while true
      invariant start <= cursor <= Max(start, log.nextSequence)
      invariant items + After(log.records, cursor) == After(log.records, start)
      invariant |items| + lost == cursor - start
      decreases log.nextSequence - cursor
    {
      var page := PageAfter(log, cursor, limit);
      PageAdvances(log, cursor, limit);
      assert items + (page.items + After(log.records, page.next)) == items + page.items + After(log.records, page.next);
      items := items + page.items;
      lost := lost + page.lost;
      cursor := page.next;
      if !page.truncated {
        NothingAfter(log, cursor);
        return;
      }
    }
  }

  /** What a page leaves for the next one is what it did not deliver. */
  lemma NextPage<T>(log: Log<T>, cursor: nat, limit: nat)
    requires Numbered(log) && limit > 0
    ensures var page := PageAfter(log, cursor, limit);
      After(log.records, cursor) == page.items + After(log.records, page.next)
  {
    var page, k := PageAfter(log, cursor, limit), Behind(log.records, cursor);
    PageItems(log, cursor, limit);
    AfterIsSuffix(log.records, cursor);
    AfterIsSuffix(log.records, page.next);
    NextBehind(log, cursor, limit);
    assert log.records[k..] == log.records[k..k + |page.items|] + log.records[k + |page.items|..];
  }

  lemma PageAdvances<T>(log: Log<T>, cursor: nat, limit: nat)
    requires Numbered(log) && limit > 0
    ensures var page := PageAfter(log, cursor, limit);
      && page.next - cursor == |page.items| + page.lost
      && cursor <= page.next <= Max(cursor, log.nextSequence)
      && (page.truncated ==> cursor < page.next < log.nextSequence)
      && (!page.truncated ==> page.next >= log.nextSequence)
      && After(log.records, cursor) == page.items + After(log.records, page.next)
  {
    PageCounts(log, cursor, limit);
    NextPage(log, cursor, limit);
  }

  lemma NextBehind<T>(log: Log<T>, cursor: nat, limit: nat)
    requires Numbered(log) && limit > 0
    ensures var page := PageAfter(log, cursor, limit);
      Behind(log.records, page.next) == Behind(log.records, cursor) + |page.items|
  {
    PageItems(log, cursor, limit);
    PageCounts(log, cursor, limit);
    AfterIsSuffix(log.records, cursor);
    var page := PageAfter(log, cursor, limit);
    BehindIs(log.records, page.next, Behind(log.records, cursor) + |page.items|);
  }

  lemma {:induction false} BehindIs<T>(records: seq<Entry<T>>, cursor: nat, m: nat)
    requires m <= |records|
    requires forall i :: 0 <= i < |records| ==> (records[i].sequence <= cursor <==> i < m)
    ensures Behind(records, cursor) == m
  {
    if m > 0 {
      forall i | 0 <= i < |records[1..]| ensures records[1..][i].sequence <= cursor <==> i < m - 1 {
        assert records[1..][i] == records[i + 1];
      }
      BehindIs(records[1..], cursor, m - 1);
    }
  }

  lemma NothingAfter<T>(log: Log<T>, cursor: nat)
    requires Numbered(log) && cursor >= log.nextSequence
    ensures After(log.records, cursor) == []
  {
    BehindIs(log.records, cursor, |log.records|);
    AfterIsSuffix(log.records, cursor);
  }

  // ---------------------------------------------------------------- runs of writers and a reader

  /**
   `history[n - 1]` is the body of the n-th attempt. The reader keeps the cursor it joined at, its
   cursor now, what was delivered to it and how much it was told is lost.
   */
  datatype World<T> = World(
    log: Log<T>, history: seq<T>, drained: nat, start: nat, cursor: nat, delivered: seq<Entry<T>>, lost: nat)

  datatype Step<T> =
    | Record(body: T)
    | Configure(profile: Profile)
    | Drain
    | Join(start: nat)
    | Read(limit: nat)

  function Apply<T>(w: World<T>, s: Step<T>): World<T> {
    match s
    case Record(body) => w.(log := Recorded(w.log, body), history := w.history + [body])
    case Configure(profile) => w.(log := Configured(w.log, profile))
    case Drain => w.(log := Drained(w.log), drained := w.drained + |w.log.records|)
    case Join(start) => w.(start := start, cursor := start, delivered := [], lost := 0)
    case Read(limit) =>
      var page := PageAfter(w.log, w.cursor, limit);
      w.(cursor := page.next, delivered := w.delivered + page.items, lost := w.lost + page.lost)
  }

  ghost predicate Genuine<T>(records: seq<Entry<T>>, history: seq<T>) {
    forall i :: 0 <= i < |records| ==>
      0 < records[i].sequence <= |history| && records[i].body == history[records[i].sequence - 1]
  }

  ghost predicate WriterOk<T>(w: World<T>) {
    && Numbered(w.log)
    && w.log.nextSequence == |w.history|
    && Genuine(w.log.records, w.history)
    && w.log.dropped + |w.log.records| + w.drained == |w.history|
  }

  ghost predicate ReaderOk<T>(w: World<T>) {
    && w.start <= w.cursor <= Max(w.start, |w.history|)
    && Increasing(w.delivered)
    && Genuine(w.delivered, w.history)
    && (forall i :: 0 <= i < |w.delivered| ==> w.start < w.delivered[i].sequence <= w.cursor)
    && |w.delivered| + w.lost == w.cursor - w.start
  }

  lemma GenuineGrows<T>(records: seq<Entry<T>>, history: seq<T>, body: T)
    requires Genuine(records, history)
    ensures Genuine(records, history + [body])
  {
  }

  lemma RecordKeeps<T>(w: World<T>, body: T)
    requires WriterOk(w) && ReaderOk(w)
    ensures WriterOk(Apply(w, Record(body))) && ReaderOk(Apply(w, Record(body)))
  {
    RecordedNumbered(w.log, body);
    GenuineGrows(w.log.records, w.history, body);
    GenuineGrows(w.delivered, w.history, body);
  }

  lemma ConfigureKeeps<T>(w: World<T>, profile: Profile)
    requires WriterOk(w) && ReaderOk(w)
    ensures WriterOk(Apply(w, Configure(profile))) && ReaderOk(Apply(w, Configure(profile)))
  {
    ConfiguredNumbered(w.log, profile);
  }

  lemma SliceGenuine<T>(records: seq<Entry<T>>, history: seq<T>, k: nat, m: nat)
    requires Increasing(records) && Genuine(records, history) && k <= m <= |records|
    ensures Increasing(records[k..m]) && Genuine(records[k..m], history)
  {
  }

  lemma SliceBetween<T>(records: seq<Entry<T>>, k: nat, m: nat, cursor: nat, next: nat)
    requires k <= m <= |records|
    requires forall i :: k <= i < m ==> cursor < records[i].sequence <= next
    ensures forall i :: 0 <= i < |records[k..m]| ==> cursor < records[k..m][i].sequence <= next
  {
  }

  /** What a page adds to the reader: records of the history, in order, between the two cursors. */
  lemma PageGenuine<T>(log: Log<T>, history: seq<T>, cursor: nat, limit: nat)
    requires Numbered(log) && Genuine(log.records, history) && limit > 0
    ensures var page := PageAfter(log, cursor, limit);
      && Increasing(page.items) && Genuine(page.items, history)
      && forall i :: 0 <= i < |page.items| ==> cursor < page.items[i].sequence <= page.next
  {
    var page, k := PageAfter(log, cursor, limit), Behind(log.records, cursor);
    PageItems(log, cursor, limit);
    SliceGenuine(log.records, history, k, k + |page.items|);
    SliceBetween(log.records, k, k + |page.items|, cursor, page.next);
  }

  lemma DeliveredGrows<T>(delivered: seq<Entry<T>>, items: seq<Entry<T>>, history: seq<T>, start: nat, cursor: nat,
                          next: nat)
    requires Increasing(delivered) && Increasing(items) && Genuine(delivered, history) && Genuine(items, history)
    requires forall i :: 0 <= i < |delivered| ==> start < delivered[i].sequence <= cursor
    requires forall i :: 0 <= i < |items| ==> cursor < items[i].sequence <= next
    requires start <= cursor <= next
    ensures Increasing(delivered + items) && Genuine(delivered + items, history)
    ensures forall i :: 0 <= i < |delivered + items| ==> start < (delivered + items)[i].sequence <= next
  {
  }

  lemma ReadKeeps<T>(w: World<T>, limit: nat)
    requires WriterOk(w) && ReaderOk(w)
    ensures WriterOk(Apply(w, Read(limit))) && ReaderOk(Apply(w, Read(limit)))
  {
    var page := PageAfter(w.log, w.cursor, limit);
    if limit == 0 {
      EmptyPage(w.log, w.cursor);
      assert w.delivered + page.items == w.delivered;
    } else {
      PageGenuine(w.log, w.history, w.cursor, limit);
      PageCounts(w.log, w.cursor, limit);
      DeliveredGrows(w.delivered, page.items, w.history, w.start, w.cursor, page.next);
    }
  }

  ghost predicate IsRun<T>(worlds: seq<World<T>>, steps: seq<Step<T>>) {
    && |worlds| == |steps| + 1
    && worlds[0] == World(Empty(worlds[0].log.profile), [], 0, worlds[0].start, worlds[0].start, [], 0)
    && forall i :: 0 <= i < |steps| ==> worlds[i + 1] == Apply(worlds[i], steps[i])
  }

  /**
   Records, drains, reconfigurations and pages in any order, with a reader that joins at any point of
   the run and at any cursor, also one past the end: numbers stay strictly increasing and within
   capacity, dropped plus retained plus drained are all the attempts, no number reaches the reader
   twice, each delivered record carries the body attempted under its number, and every number from
   where the reader joined up to its cursor was delivered or reported lost exactly once.
   */
  lemma {:induction false} NothingIsMiscounted<T>(worlds: seq<World<T>>, steps: seq<Step<T>>, i: nat)
    requires IsRun(worlds, steps) && i < |worlds|
    ensures WriterOk(worlds[i]) && ReaderOk(worlds[i])
  {
    if i > 0 {
      NothingIsMiscounted(worlds, steps, i - 1);
      var w := worlds[i - 1];
      match steps[i - 1]
      case Record(body) => RecordKeeps(w, body);
      case Configure(profile) => ConfigureKeeps(w, profile);
      case Drain =>
      case Join(start) =>
      case Read(limit) => ReadKeeps(w, limit);
    }
  }

  /** In every run a reconfiguration installs its profile and keeps as many records as fit it. */
  lemma ReconfigurationTakesEffect<T>(worlds: seq<World<T>>, steps: seq<Step<T>>, i: nat)
    requires IsRun(worlds, steps) && i < |steps| && steps[i].Configure?
    ensures worlds[i + 1].log.profile == steps[i].profile
    ensures |worlds[i + 1].log.records| == Min(|worlds[i].log.records|, steps[i].profile.capacity)
    ensures worlds[i + 1].history == worlds[i].history && worlds[i + 1].cursor == worlds[i].cursor
  {
    NothingIsMiscounted(worlds, steps, i);
    ReconfigurationKeeps(worlds[i].log, steps[i].profile);
  }

  // ---------------------------------------------------------------- the log in place

  class BoundedLog<T> {
    var records: seq<Entry<T>>
    var nextSequence: nat
    var profile: Profile
    var dropped: nat

    ghost function Model(): Log<T>
      reads this
    {
      Log(records, nextSequence, profile, dropped)
    }

    constructor (profile: Profile)
      ensures Model() == Empty(profile)
    {
      records, nextSequence, this.profile, dropped := [], 0, profile, 0;
    }

    method Configure(newProfile: Profile)
      modifies this
      ensures Model() == Configured(old(Model()), newProfile)
    {
      profile := newProfile;
      ghost var n := |records|;
      while |records| > profile.capacity
        invariant profile == newProfile && nextSequence == old(nextSequence)
        invariant |records| <= n && dropped == old(dropped) + n - |records|
        invariant |records| < n ==> |records| >= profile.capacity
        invariant records == if profile.policy.DropOldest? then old(records)[n - |records|..] else old(records)[..|records|]
      {
        if profile.policy.DropOldest? {
          records := records[1..];
        } else {
          records := records[..|records| - 1];
        }
        dropped := dropped + 1;
      }
    }

    method MakeRoom() returns (room: bool)
      modifies this`records, this`dropped
      ensures room == old(WillRetainNext(Model()))
      ensures !room ==> records == old(records) && dropped == old(dropped) + 1
      ensures room && |old(records)| != profile.capacity ==> records == old(records) && dropped == old(dropped)
      ensures room && |old(records)| == profile.capacity ==> records == old(records)[1..] && dropped == old(dropped) + 1
    {
      if !WillRetainNext(Log(records, nextSequence, profile, dropped)) {
        dropped := dropped + 1;
        return false;
      }
      if |records| == profile.capacity {
        records := records[1..];
        dropped := dropped + 1;
      }
      return true;
    }

    method RecordWith(body: T) returns (kept: Option<Entry<T>>)
      modifies this
      ensures Model() == Recorded(old(Model()), body)
      ensures kept.Some? <==> old(WillRetainNext(Model()))
      ensures kept.Some? ==> |records| > 0 && kept.value == records[|records| - 1] == Entry(old(nextSequence) + 1, body)
    {
      nextSequence := nextSequence + 1;
      if !WillRetainNext(Log(records, nextSequence, profile, dropped)) {
        dropped := dropped + 1;
        return None;
      }
      var record := Entry(nextSequence, body);
      var room := MakeRoom();
      if room {
        records := records + [record];
      }
      return Some(record);
    }

    method DrainAll() returns (all: seq<Entry<T>>)
      modifies this`records
      ensures all == old(records) && Model() == Drained(old(Model()))
    {
      all := records;
      records := [];
    }
  }
}
