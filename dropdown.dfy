/**
 * The job monitor dropdown (`TTSDropdown`): per-status counts over the job
 * list, the whole-day recency bucket of each job, the grouping of jobs into
 * the five buckets in a fixed order, the multi-select status filter that can
 * never become empty, and the filtering applied to the groups when rendering.
 *
 * The wall clock is a parameter `now`, and `createdAt` is a millisecond
 * timestamp rather than a date string.
 */
module Dropdown {
  import opened Seqs

  /** The closed set of job states. */
  datatype Status = InProgress | Queued | Failed | Completed

  /** The label the component uses as the status value and shows on screen. */
  function StatusLabel(s: Status): string {
    match s
    case InProgress => "진행"
    case Queued => "대기"
    case Failed => "실패"
    case Completed => "완료"
  }

  /**
   * Distinct statuses have distinct labels, so the component's string-keyed
   * `stats` record and filter list carry the same information as the
   * `Status`-keyed ones here.
   */
  lemma StatusLabelInjective(s: Status, t: Status)
    ensures StatusLabel(s) == StatusLabel(t) <==> s == t
  {
  }

  /** The initial filter, and the order of the filter buttons and count badges. */
  const AllStatuses: seq<Status> := [InProgress, Queued, Failed, Completed]

  /** One `TTSFile`; `progress` is only shown for a job in progress. */
  datatype TtsFile = TtsFile(
    id: int,
    name: string,
    status: Status,
    progress: Option<int>,
    createdAt: int)

  /** The recency buckets. */
  datatype Category = Today | Yesterday | DayBeforeYesterday | WithinWeek | MonthAgo

  /** The bucket's heading, also its key in the component's grouping record. */
  function CategoryLabel(c: Category): string {
    match c
    case Today => "오늘"
    case Yesterday => "어제"
    case DayBeforeYesterday => "그저께"
    case WithinWeek => "일주일 전"
    case MonthAgo => "한달 전"
  }

  /** `categoryOrder`. */
  const CategoryOrder: seq<Category> := [Today, Yesterday, DayBeforeYesterday, WithinWeek, MonthAgo]

  /**
   * Distinct buckets have distinct headings, so the component's record keyed
   * by heading holds the same groups as the `Category`-keyed map here, and
   * `CategoryOrder` spells out the component's `categoryOrder`.
   */
  lemma CategoryLabelInjective(c: Category, d: Category)
    ensures CategoryLabel(c) == CategoryLabel(d) <==> c == d
    ensures Map(CategoryLabel, CategoryOrder) == ["오늘", "어제", "그저께", "일주일 전", "한달 전"]
  {
  }

  /** `1000 * 60 * 60 * 24`. */
  const DayMs: int := 86_400_000

  /**
   * `Math.floor(diffTime / DayMs)`. Dafny's `/` with a positive divisor
   * rounds toward negative infinity, as `Math.floor` does, also for jobs
   * created after `now`.
   */
  function DiffDays(now: int, createdAt: int): int {
    (now - createdAt) / DayMs
  }

  /** `formatDateCategory`: the bucket of a job by whole days elapsed. */
  function FormatDateCategory(now: int, createdAt: int): Category {
    var diffDays := DiffDays(now, createdAt);
    if diffDays == 0 then Today
    else if diffDays == 1 then Yesterday
    else if diffDays == 2 then DayBeforeYesterday
    else if diffDays <= 7 then WithinWeek
    else MonthAgo
  }

  /** `DiffDays` is the floor of the elapsed time in days. */
  lemma DiffDaysIsFloor(now: int, createdAt: int)
    ensures DiffDays(now, createdAt) * DayMs <= now - createdAt < (DiffDays(now, createdAt) + 1) * DayMs
  {
  }

  /**
   * The buckets stated on the elapsed milliseconds: under one day is today,
   * the next two days are yesterday and the day before, then up to eight days
   * (and every future timestamp) is within a week, and the rest is a month ago.
   */
  lemma FormatDateCategoryRanges(now: int, createdAt: int)
    ensures FormatDateCategory(now, createdAt) == Today <==> 0 <= now - createdAt < DayMs
    ensures FormatDateCategory(now, createdAt) == Yesterday <==> DayMs <= now - createdAt < 2 * DayMs
    ensures FormatDateCategory(now, createdAt) == DayBeforeYesterday <==>
      2 * DayMs <= now - createdAt < 3 * DayMs
    ensures FormatDateCategory(now, createdAt) == WithinWeek <==>
      now - createdAt < 0 || 3 * DayMs <= now - createdAt < 8 * DayMs
    ensures FormatDateCategory(now, createdAt) == MonthAgo <==> 8 * DayMs <= now - createdAt
  {
    DiffDaysIsFloor(now, createdAt);
  }

  /** The boundaries: exactly 2, 7 and 8 days before `now`, and one millisecond after it. */
  lemma BucketBoundaries(now: int)
    ensures FormatDateCategory(now, now - 2 * DayMs) == DayBeforeYesterday
    ensures FormatDateCategory(now, now - 7 * DayMs) == WithinWeek
    ensures FormatDateCategory(now, now - 8 * DayMs) == MonthAgo
    ensures FormatDateCategory(now, now + 1) == WithinWeek
  {
  }

  // ----- grouping -----

  function InCategory(now: int, c: Category): TtsFile -> bool {
    (f: TtsFile) => FormatDateCategory(now, f.createdAt) == c
  }

  /** The jobs of one bucket, in input order: what `acc[category].push(file)` collects. */
  function Bucket(files: seq<TtsFile>, now: int, c: Category): seq<TtsFile> {
    Filter(InCategory(now, c), files)
  }

  /** One heading and its jobs, an entry of `Object.entries(categorizedFiles)`. */
  datatype Group = Group(category: Category, files: seq<TtsFile>)

  function CategoryOf(g: Group): Category { g.category }

  predicate NonEmptyGroup(g: Group) { |g.files| > 0 }

  function GroupOf(files: seq<TtsFile>, now: int): Category -> Group {
    (c: Category) => Group(c, Bucket(files, now, c))
  }

  /** Concatenation of the groups' jobs. */
  function Flatten(groups: seq<Group>): seq<TtsFile>
    decreases |groups|
  {
    if |groups| == 0 then []
    else Flatten(groups[..|groups| - 1]) + groups[|groups| - 1].files
  }

  /**
   * `categorizedFiles`: for each bucket of `order` in turn, its jobs when it
   * has any. The component uses `CategoryOrder`.
   */
  function GroupsIn(files: seq<TtsFile>, now: int, order: seq<Category>): seq<Group> {
    Filter(NonEmptyGroup, Map(GroupOf(files, now), order))
  }

  function Categorized(files: seq<TtsFile>, now: int): seq<Group> {
    GroupsIn(files, now, CategoryOrder)
  }

  /** `grouped` maps exactly the non-empty buckets of `files` to their jobs. */
  ghost predicate GroupedBy(grouped: map<Category, seq<TtsFile>>, files: seq<TtsFile>, now: int) {
    forall c :: (c in grouped <==> |Bucket(files, now, c)| > 0)
      && (c in grouped ==> grouped[c] == Bucket(files, now, c))
  }

  /** Pushing one more job onto its bucket's list keeps the map in step with the buckets. */
  lemma GroupedPush(grouped: map<Category, seq<TtsFile>>, files: seq<TtsFile>, file: TtsFile, now: int)
    requires GroupedBy(grouped, files, now)
    ensures var category := FormatDateCategory(now, file.createdAt);
      GroupedBy(grouped[category := (if category in grouped then grouped[category] else []) + [file]],
        files + [file], now)
  {
    var category := FormatDateCategory(now, file.createdAt);
    var next := grouped[category := (if category in grouped then grouped[category] else []) + [file]];
    forall c
      ensures (c in next <==> |Bucket(files + [file], now, c)| > 0)
        && (c in next ==> next[c] == Bucket(files + [file], now, c))
    {
      FilterSnoc(InCategory(now, c), files, file);
      assert InCategory(now, c)(file) <==> c == category;
    }
  }

  /** The first `reduce` of `categorizedFiles`: each job pushed onto its bucket's list. */
  method GroupByBucket(files: seq<TtsFile>, now: int) returns (grouped: map<Category, seq<TtsFile>>)
    ensures GroupedBy(grouped, files, now)
  {
    grouped := map[];
    var i := 0;
    while i < |files|
      invariant 0 <= i <= |files|
      invariant GroupedBy(grouped, files[..i], now)
    {
      var file := files[i];
      var category := FormatDateCategory(now, file.createdAt);
      GroupedPush(grouped, files[..i], file, now);
      ghost var next := grouped[category := (if category in grouped then grouped[category] else []) + [file]];
      if category !in grouped {
        grouped := grouped[category := []];
      }
      grouped := grouped[category := grouped[category] + [file]];
      assert grouped == next;
      assert files[..i + 1] == files[..i] + [file];
      i := i + 1;
    }
    assert files[..i] == files;
  }

  /** One more bucket of the order adds its group exactly when the grouped map holds it. */
  lemma GroupsInSnoc(grouped: map<Category, seq<TtsFile>>, files: seq<TtsFile>, now: int,
                     order: seq<Category>, category: Category)
    requires GroupedBy(grouped, files, now)
    ensures GroupsIn(files, now, order + [category]) == GroupsIn(files, now, order)
      + (if category in grouped then [Group(category, grouped[category])] else [])
  {
    MapSnoc(GroupOf(files, now), order, category);
    FilterSnoc(NonEmptyGroup, Map(GroupOf(files, now), order), GroupOf(files, now)(category));
  }

  /**
   * `categorizedFiles`: the buckets grouped by the first `reduce`, then
   * copied by the second, in `categoryOrder`, skipping the empty ones.
   */
  method CategorizeFiles(files: seq<TtsFile>, now: int) returns (groups: seq<Group>)
    ensures groups == Categorized(files, now)
  {
    var grouped := GroupByBucket(files, now);
    groups := [];
    var j := 0;
    while j < |CategoryOrder|
      invariant 0 <= j <= |CategoryOrder|
      invariant groups == GroupsIn(files, now, CategoryOrder[..j])
    {
      var category := CategoryOrder[j];
      assert CategoryOrder[..j + 1] == CategoryOrder[..j] + [category];
      GroupsInSnoc(grouped, files, now, CategoryOrder[..j], category);
      if category in grouped {
        groups := groups + [Group(category, grouped[category])];
      }
      j := j + 1;
    }
    assert CategoryOrder[..j] == CategoryOrder;
  }

  /** Every listed group is non-empty and holds exactly its bucket's jobs, in input order. */
  lemma GroupsInHoldBuckets(files: seq<TtsFile>, now: int, order: seq<Category>)
    ensures forall g :: 0 <= g < |GroupsIn(files, now, order)| ==> NonEmptyGroup(GroupsIn(files, now, order)[g])
    ensures forall g :: 0 <= g < |GroupsIn(files, now, order)| ==>
      GroupsIn(files, now, order)[g].files == Bucket(files, now, GroupsIn(files, now, order)[g].category)
  {
    var all := Map(GroupOf(files, now), order);
    var r := GroupsIn(files, now, order);
    forall g | 0 <= g < |r|
      ensures r[g].files == Bucket(files, now, r[g].category)
    {
      FilterMembers(NonEmptyGroup, all, r[g]);
    }
  }

  /** Within a bucket the jobs keep their relative order in the input. */
  lemma BucketKeepsOrder(files: seq<TtsFile>, now: int, c: Category)
    ensures Subseq(Bucket(files, now, c), files)
  {
    FilterIsSubseq(InCategory(now, c), files);
  }

  /** The groups' buckets come in the order of `order` (for the component, today .. a month ago). */
  lemma GroupsInOrder(files: seq<TtsFile>, now: int, order: seq<Category>)
    ensures Subseq(Map(CategoryOf, GroupsIn(files, now, order)), order)
  {
    var all := Map(GroupOf(files, now), order);
    FilterIsSubseq(NonEmptyGroup, all);
    MapSubseq(CategoryOf, GroupsIn(files, now, order), all);
    assert Map(CategoryOf, all) == order;
  }

  /** A bucket of `order` is listed exactly when some job falls in it. */
  lemma GroupsInListsEveryBucket(files: seq<TtsFile>, now: int, order: seq<Category>, c: Category)
    ensures c in Map(CategoryOf, GroupsIn(files, now, order)) <==> c in order && |Bucket(files, now, c)| > 0
  {
    var all := Map(GroupOf(files, now), order);
    var r := GroupsIn(files, now, order);
    if c in Map(CategoryOf, r) {
      var g :| 0 <= g < |r| && r[g].category == c;
      FilterMembers(NonEmptyGroup, all, r[g]);
      var k :| 0 <= k < |all| && all[k] == r[g];
      assert order[k] == c;
    }
    if c in order && |Bucket(files, now, c)| > 0 {
      var k :| 0 <= k < |order| && order[k] == c;
      FilterMembers(NonEmptyGroup, all, all[k]);
      var g :| 0 <= g < |r| && r[g] == all[k];
      assert Map(CategoryOf, r)[g] == c;
    }
  }

  /** A job in a listed group belongs to that group's bucket. */
  lemma GroupOfFile(files: seq<TtsFile>, now: int, order: seq<Category>, g: int, f: TtsFile)
    requires 0 <= g < |GroupsIn(files, now, order)| && f in GroupsIn(files, now, order)[g].files
    ensures GroupsIn(files, now, order)[g].category == FormatDateCategory(now, f.createdAt)
  {
    var r := GroupsIn(files, now, order);
    GroupsInHoldBuckets(files, now, order);
    FilterMembers(InCategory(now, r[g].category), files, f);
  }

  /** Every job is listed in the group of its own bucket. */
  lemma CategorizedHasFile(files: seq<TtsFile>, now: int, f: TtsFile)
    requires f in files
    ensures exists g :: (0 <= g < |Categorized(files, now)|
      && Categorized(files, now)[g].category == FormatDateCategory(now, f.createdAt)
      && f in Categorized(files, now)[g].files)
  {
    var r := Categorized(files, now);
    var c := FormatDateCategory(now, f.createdAt);
    FilterMembers(InCategory(now, c), files, f);
    GroupsInListsEveryBucket(files, now, CategoryOrder, c);
    var g :| 0 <= g < |r| && Map(CategoryOf, r)[g] == c;
    GroupsInHoldBuckets(files, now, CategoryOrder);
    assert f in r[g].files;
  }

  /** No job is listed in two groups. */
  lemma CategorizedFileOnce(files: seq<TtsFile>, now: int, f: TtsFile, g1: int, g2: int)
    requires 0 <= g1 < |Categorized(files, now)| && 0 <= g2 < |Categorized(files, now)|
    requires f in Categorized(files, now)[g1].files && f in Categorized(files, now)[g2].files
    ensures g1 == g2
  {
    var cats := Map(CategoryOf, Categorized(files, now));
    GroupsInOrder(files, now, CategoryOrder);
    SubseqNoDup(cats, CategoryOrder);
    GroupOfFile(files, now, CategoryOrder, g1, f);
    GroupOfFile(files, now, CategoryOrder, g2, f);
    assert cats[g1] == cats[g2];
  }

  /** Every job lands in the one group of its bucket, and in no other. */
  lemma CategorizedPlacesEachFileOnce(files: seq<TtsFile>, now: int, f: TtsFile)
    requires f in files
    ensures exists g :: (0 <= g < |Categorized(files, now)|
      && Categorized(files, now)[g].category == FormatDateCategory(now, f.createdAt)
      && f in Categorized(files, now)[g].files)
    ensures forall g1, g2 ::
      (0 <= g1 < |Categorized(files, now)| && 0 <= g2 < |Categorized(files, now)|
       && f in Categorized(files, now)[g1].files && f in Categorized(files, now)[g2].files) ==> g1 == g2
  {
    CategorizedHasFile(files, now, f);
    forall g1, g2 | (0 <= g1 < |Categorized(files, now)| && 0 <= g2 < |Categorized(files, now)|
       && f in Categorized(files, now)[g1].files && f in Categorized(files, now)[g2].files)
      ensures g1 == g2
    {
      CategorizedFileOnce(files, now, f, g1, g2);
    }
  }

  lemma {:induction false} FlattenSnoc(groups: seq<Group>, g: Group)
    ensures Flatten(groups + [g]) == Flatten(groups) + g.files
  {
    assert (groups + [g])[..|groups|] == groups;
  }

  /** Dropping empty groups does not change the concatenation. */
  lemma {:induction false} FlattenNonEmpty(groups: seq<Group>)
    ensures Flatten(Filter(NonEmptyGroup, groups)) == Flatten(groups)
    decreases |groups|
  {
    if |groups| > 0 {
      var gs, g := groups[..|groups| - 1], groups[|groups| - 1];
      FlattenNonEmpty(gs);
      assert Flatten(groups) == Flatten(gs) + g.files;
      if NonEmptyGroup(g) {
        assert Filter(NonEmptyGroup, groups) == Filter(NonEmptyGroup, gs) + [g];
        FlattenSnoc(Filter(NonEmptyGroup, gs), g);
      } else {
        assert Filter(NonEmptyGroup, groups) == Filter(NonEmptyGroup, gs);
        assert Flatten(gs) + g.files == Flatten(gs);
      }
    }
  }

  /** The jobs of the buckets of `cats`, pooled. */
  ghost function Pooled(files: seq<TtsFile>, now: int, cats: seq<Category>): multiset<TtsFile>
    decreases |cats|
  {
    if |cats| == 0 then multiset{}
    else Pooled(files, now, cats[..|cats| - 1]) + multiset(Bucket(files, now, cats[|cats| - 1]))
  }

  /** Every category has its place in `CategoryOrder`. */
  lemma CategoryOrderComplete(c: Category)
    ensures c in CategoryOrder
  {
    match c
    case Today => assert CategoryOrder[0] == c;
    case Yesterday => assert CategoryOrder[1] == c;
    case DayBeforeYesterday => assert CategoryOrder[2] == c;
    case WithinWeek => assert CategoryOrder[3] == c;
    case MonthAgo => assert CategoryOrder[4] == c;
  }

  /** One more job joins the pool exactly when its bucket is one of `cats`, and then once. */
  lemma {:induction false} PooledSnoc(files: seq<TtsFile>, f: TtsFile, now: int, cats: seq<Category>)
    requires NoDup(cats)
    ensures Pooled(files + [f], now, cats) == Pooled(files, now, cats)
      + if FormatDateCategory(now, f.createdAt) in cats then multiset{f} else multiset{}
    decreases |cats|
  {
    if |cats| > 0 {
      var cs, c := cats[..|cats| - 1], cats[|cats| - 1];
      assert cats == cs + [c];
      assert NoDup(cs);
      PooledSnoc(files, f, now, cs);
      FilterSnoc(InCategory(now, c), files, f);
      assert c !in cs;
    }
  }

  lemma {:induction false} PooledEmpty(now: int, cats: seq<Category>)
    ensures Pooled([], now, cats) == multiset{}
    decreases |cats|
  {
    if |cats| > 0 {
      PooledEmpty(now, cats[..|cats| - 1]);
    }
  }

  /** The five buckets together hold every job exactly as often as the input does. */
  lemma {:induction false} BucketsPartition(files: seq<TtsFile>, now: int)
    ensures Pooled(files, now, CategoryOrder) == multiset(files)
    decreases |files|
  {
    if |files| > 0 {
      var fs, f := files[..|files| - 1], files[|files| - 1];
      assert files == fs + [f];
      BucketsPartition(fs, now);
      PooledSnoc(fs, f, now, CategoryOrder);
      CategoryOrderComplete(FormatDateCategory(now, f.createdAt));
    } else {
      PooledEmpty(now, CategoryOrder);
    }
  }

  /** Concatenating the groups of `cats`, empty ones included, pools their buckets. */
  lemma {:induction false} FlattenPooled(files: seq<TtsFile>, now: int, cats: seq<Category>)
    ensures multiset(Flatten(Map(GroupOf(files, now), cats))) == Pooled(files, now, cats)
    decreases |cats|
  {
    if |cats| > 0 {
      var cs, c := cats[..|cats| - 1], cats[|cats| - 1];
      assert cats == cs + [c];
      FlattenPooled(files, now, cs);
      MapSnoc(GroupOf(files, now), cs, c);
      FlattenSnoc(Map(GroupOf(files, now), cs), GroupOf(files, now)(c));
    }
  }

  /** Reading the groups in order lists a permutation of the input jobs. */
  lemma CategorizedIsPermutation(files: seq<TtsFile>, now: int)
    ensures multiset(Flatten(Categorized(files, now))) == multiset(files)
  {
    FlattenNonEmpty(Map(GroupOf(files, now), CategoryOrder));
    FlattenPooled(files, now, CategoryOrder);
    BucketsPartition(files, now);
  }

  // ----- counts -----

  function HasStatus(s: Status): TtsFile -> bool {
    (f: TtsFile) => f.status == s
  }

  /** The number of jobs holding status `s`. */
  function CountStatus(files: seq<TtsFile>, s: Status): nat {
    |Filter(HasStatus(s), files)|
  }

  /** A badge's `stats[status] || 0`: a status no job holds reads as 0. */
  function StatOrZero(stats: map<Status, nat>, s: Status): nat {
    if s in stats then stats[s] else 0
  }

  /**
   * `stats`: a `reduce` that increments `acc[file.status]` for each job. The
   * job list is its only input: the active filter plays no part.
   */
  method ComputeStats(files: seq<TtsFile>) returns (stats: map<Status, nat>)
    ensures forall s :: s in stats <==> CountStatus(files, s) > 0
    ensures forall s :: StatOrZero(stats, s) == CountStatus(files, s)
  {
    stats := map[];
    var i := 0;
    while i < |files|
      invariant 0 <= i <= |files|
      invariant forall s :: s in stats <==> CountStatus(files[..i], s) > 0
      invariant forall s :: StatOrZero(stats, s) == CountStatus(files[..i], s)
    {
      var status := files[i].status;
      assert files[..i + 1] == files[..i] + [files[i]];
      forall s {
        FilterSnoc(HasStatus(s), files[..i], files[i]);
      }
      stats := stats[status := StatOrZero(stats, status) + 1];
      i := i + 1;
    }
    assert files[..i] == files;
  }

  /** The four counts add up to the number of jobs. */
  lemma {:induction false} StatusCountsSum(files: seq<TtsFile>)
    ensures CountStatus(files, InProgress) + CountStatus(files, Queued)
      + CountStatus(files, Failed) + CountStatus(files, Completed) == |files|
    decreases |files|
  {
    if |files| > 0 {
      var fs, f := files[..|files| - 1], files[|files| - 1];
      assert files == fs + [f];
      StatusCountsSum(fs);
      FilterSnoc(HasStatus(InProgress), fs, f);
      FilterSnoc(HasStatus(Queued), fs, f);
      FilterSnoc(HasStatus(Failed), fs, f);
      FilterSnoc(HasStatus(Completed), fs, f);
    }
  }

  // ----- status filter -----

  function OtherThan(s: Status): Status -> bool {
    (t: Status) => t != s
  }

  /**
   * `toggleStatus`'s updater: a present status is removed unless it is the
   * only one left; an absent status is appended.
   */
  function StatusToggled(prev: seq<Status>, status: Status): (r: seq<Status>)
    ensures status in prev && |prev| == 1 ==> r == prev
    ensures status in prev && |prev| > 1 ==>
      status !in r && forall t :: t != status ==> (t in r <==> t in prev)
    ensures status !in prev ==> r == prev + [status]
  {
    if status in prev then
      if |prev| == 1 then prev else
        var r := Filter(OtherThan(status), prev);
        assert forall t :: t in r <==> t in prev && t != status by {
          forall t { FilterMembers(OtherThan(status), prev, t); }
        }
        r
    else prev + [status]
  }

  /** Toggling keeps a duplicate-free, non-empty filter duplicate-free and non-empty. */
  lemma StatusToggledKeepsFilterValid(prev: seq<Status>, status: Status)
    requires |prev| > 0 && NoDup(prev)
    ensures |StatusToggled(prev, status)| > 0 && NoDup(StatusToggled(prev, status))
  {
    var r := StatusToggled(prev, status);
    if status in prev && |prev| > 1 {
      FilterNoDup(OtherThan(status), prev);
      var k :| 0 <= k < |prev| && prev[k] == status;
      var other := if k == 0 then prev[1] else prev[0];
      assert other != status;
      assert other in r;
    }
  }

  /** A run of `toggleStatus` clicks, in order. */
  function StatusToggledAll(prev: seq<Status>, clicks: seq<Status>): seq<Status>
    decreases |clicks|
  {
    if |clicks| == 0 then prev
    else StatusToggled(StatusToggledAll(prev, clicks[..|clicks| - 1]), clicks[|clicks| - 1])
  }

  /** From the initial four-status filter, no run of clicks ever empties the filter. */
  lemma {:induction false} FilterNeverEmpty(clicks: seq<Status>)
    ensures |StatusToggledAll(AllStatuses, clicks)| > 0
    ensures NoDup(StatusToggledAll(AllStatuses, clicks))
    decreases |clicks|
  {
    if |clicks| > 0 {
      FilterNeverEmpty(clicks[..|clicks| - 1]);
      StatusToggledKeepsFilterValid(StatusToggledAll(AllStatuses, clicks[..|clicks| - 1]), clicks[|clicks| - 1]);
    }
  }

  /** In a duplicate-free filter, removing a status takes out just its one entry and keeps the order of the rest. */
  lemma {:induction false} StatusRemovedInPlace(prev: seq<Status>, k: nat)
    requires NoDup(prev) && k < |prev|
    ensures Filter(OtherThan(prev[k]), prev) == prev[..k] + prev[k + 1..]
  {
    var front, x, back := prev[..k], prev[k], prev[k + 1..];
    assert prev == front + [x] + back;
    FilterAppend(OtherThan(x), front + [x], back);
    FilterAppend(OtherThan(x), front, [x]);
    forall i | 0 <= i < |front| ensures OtherThan(x)(front[i]) {
      assert front[i] == prev[i];
    }
    FilterKeepsAll(OtherThan(x), front);
    forall i | 0 <= i < |back| ensures OtherThan(x)(back[i]) {
      assert back[i] == prev[k + 1 + i];
    }
    FilterKeepsAll(OtherThan(x), back);
    FilterDropsAll(OtherThan(x), [x]);
  }

  /** Clicking the first status of a duplicate-free filter of two or more drops just that one. */
  lemma StatusToggledFirst(prev: seq<Status>)
    requires NoDup(prev) && |prev| > 1
    ensures StatusToggled(prev, prev[0]) == prev[1..]
  {
    StatusRemovedInPlace(prev, 0);
  }

  /**
   * Removing the statuses one by one from the initial filter: after
   * `진행`, `대기` and `실패` only `완료` is left, and a click on it is refused.
   */
  lemma RemoveAllButLastScenario()
    ensures StatusToggled(AllStatuses, InProgress) == [Queued, Failed, Completed]
    ensures StatusToggled([Queued, Failed, Completed], Queued) == [Failed, Completed]
    ensures StatusToggled([Failed, Completed], Failed) == [Completed]
    ensures StatusToggled([Completed], Completed) == [Completed]
  {
    StatusToggledFirst(AllStatuses);
    StatusToggledFirst([Queued, Failed, Completed]);
    StatusToggledFirst([Failed, Completed]);
  }

  // ----- what is rendered -----

  function StatusIn(selected: seq<Status>): TtsFile -> bool {
    (f: TtsFile) => f.status in selected
  }

  function Restrict(selected: seq<Status>): Group -> Group {
    (g: Group) => Group(g.category, Filter(StatusIn(selected), g.files))
  }

  /**
   * The list under the filter buttons: each group's jobs whose status is
   * selected, and no group that this leaves empty.
   */
  function VisibleGroups(groups: seq<Group>, selected: seq<Status>): (r: seq<Group>)
    ensures forall g :: 0 <= g < |r| ==> NonEmptyGroup(r[g])
    ensures forall g, k :: 0 <= g < |r| && 0 <= k < |r[g].files| ==> r[g].files[k].status in selected
  {
    var r := Filter(NonEmptyGroup, Map(Restrict(selected), groups));
    assert forall g :: 0 <= g < |r| ==> r[g] in Map(Restrict(selected), groups) by {
      forall g | 0 <= g < |r| { FilterMembers(NonEmptyGroup, Map(Restrict(selected), groups), r[g]); }
    }
    r
  }

  /** The visible groups keep the order of the groups they come from. */
  lemma VisibleGroupsKeepOrder(groups: seq<Group>, selected: seq<Status>)
    ensures Subseq(Map(CategoryOf, VisibleGroups(groups, selected)), Map(CategoryOf, groups))
  {
    var mapped := Map(Restrict(selected), groups);
    FilterIsSubseq(NonEmptyGroup, mapped);
    MapSubseq(CategoryOf, VisibleGroups(groups, selected), mapped);
    assert Map(CategoryOf, mapped) == Map(CategoryOf, groups);
  }

  /**
   * Filtering the groups when rendering is the same as grouping only the
   * jobs whose status is selected: each shown group holds exactly the jobs
   * of its bucket with a selected status, in input order.
   */
  lemma {:induction false} VisibleGroupsIsGroupingOfFiltered(
    files: seq<TtsFile>, now: int, order: seq<Category>, selected: seq<Status>)
    ensures VisibleGroups(GroupsIn(files, now, order), selected)
      == GroupsIn(Filter(StatusIn(selected), files), now, order)
    decreases |order|
  {
    var q := StatusIn(selected);
    var kept := Filter(q, files);
    if |order| > 0 {
      var o, c := order[..|order| - 1], order[|order| - 1];
      assert order == o + [c];
      VisibleGroupsIsGroupingOfFiltered(files, now, o, selected);
      var g := GroupOf(files, now)(c);
      MapSnoc(GroupOf(files, now), o, c);
      FilterSnoc(NonEmptyGroup, Map(GroupOf(files, now), o), g);
      MapSnoc(GroupOf(kept, now), o, c);
      FilterSnoc(NonEmptyGroup, Map(GroupOf(kept, now), o), GroupOf(kept, now)(c));
      FilterCommute(q, InCategory(now, c), files);
      assert Restrict(selected)(g) == GroupOf(kept, now)(c);
      var front := GroupsIn(files, now, o);
      var tail := if NonEmptyGroup(g) then [g] else [];
      MapAppend(Restrict(selected), front, tail);
      FilterAppend(NonEmptyGroup, Map(Restrict(selected), front), Map(Restrict(selected), tail));
      if !NonEmptyGroup(g) {
        assert Bucket(files, now, c) == [];
        assert Bucket(kept, now, c) == [];
      }
    }
  }

  /** A completed-only filter over three jobs of today, one of them completed, shows that one job under today. */
  lemma CompletedFilterScenario(a: TtsFile, b: TtsFile, c: TtsFile, now: int)
    requires a.status == InProgress && b.status == Completed && c.status == Failed
    requires FormatDateCategory(now, b.createdAt) == Today
    ensures VisibleGroups(Categorized([a, b, c], now), [Completed]) == [Group(Today, [b])]
  {
    OnlyCompletedKept(a, b, c);
    VisibleGroupsIsGroupingOfFiltered([a, b, c], now, CategoryOrder, [Completed]);
    CategorizedSingle(b, now);
  }

  lemma OnlyCompletedKept(a: TtsFile, b: TtsFile, c: TtsFile)
    requires a.status == InProgress && b.status == Completed && c.status == Failed
    ensures Filter(StatusIn([Completed]), [a, b, c]) == [b]
  {
    FilterSnoc(StatusIn([Completed]), [], a);
    FilterSnoc(StatusIn([Completed]), [a], b);
    FilterSnoc(StatusIn([Completed]), [a, b], c);
    assert [a] + [b] == [a, b] && [a, b] + [c] == [a, b, c];
  }

  /** Jobs that all fall in one category form a single group, listed where that category is. */
  lemma {:induction false} GroupsInOneCategory(files: seq<TtsFile>, now: int, order: seq<Category>, c: Category)
    requires |files| > 0 && NoDup(order)
    requires forall k :: 0 <= k < |files| ==> FormatDateCategory(now, files[k].createdAt) == c
    ensures GroupsIn(files, now, order) == if c in order then [Group(c, files)] else []
    decreases |order|
  {
    if |order| > 0 {
      var o, x := order[..|order| - 1], order[|order| - 1];
      assert order == o + [x];
      assert NoDup(o);
      GroupsInOneCategory(files, now, o, c);
      MapSnoc(GroupOf(files, now), o, x);
      FilterSnoc(NonEmptyGroup, Map(GroupOf(files, now), o), GroupOf(files, now)(x));
      if x == c {
        FilterKeepsAll(InCategory(now, c), files);
        assert c !in o;
      } else {
        FilterDropsAll(InCategory(now, x), files);
      }
    }
  }

  /** A single job makes a single group, under its own category. */
  lemma CategorizedSingle(f: TtsFile, now: int)
    ensures Categorized([f], now) == [Group(FormatDateCategory(now, f.createdAt), [f])]
  {
    var c := FormatDateCategory(now, f.createdAt);
    CategoryOrderComplete(c);
    GroupsInOneCategory([f], now, CategoryOrder, c);
  }

  /** Counting one more job adds one to its own status and nothing to the others. */
  lemma CountStatusSnoc(files: seq<TtsFile>, f: TtsFile, s: Status)
    ensures CountStatus(files + [f], s) == CountStatus(files, s) + (if f.status == s then 1 else 0)
  {
    FilterSnoc(HasStatus(s), files, f);
  }

  /** The scenario `[in-progress, queued, failed, completed, completed]`: counts 1, 1, 1, 2. */
  lemma StatsScenario(a: TtsFile, b: TtsFile, c: TtsFile, d: TtsFile, e: TtsFile)
    requires a.status == InProgress && b.status == Queued && c.status == Failed
    requires d.status == Completed && e.status == Completed
    ensures CountStatus([a, b, c, d, e], InProgress) == 1
    ensures CountStatus([a, b, c, d, e], Queued) == 1
    ensures CountStatus([a, b, c, d, e], Failed) == 1
    ensures CountStatus([a, b, c, d, e], Completed) == 2
  {
    CountFive(a, b, c, d, e, InProgress);
    CountFive(a, b, c, d, e, Queued);
    CountFive(a, b, c, d, e, Failed);
    CountFive(a, b, c, d, e, Completed);
  }

  lemma CountFive(a: TtsFile, b: TtsFile, c: TtsFile, d: TtsFile, e: TtsFile, s: Status)
    ensures CountStatus([a, b, c, d, e], s) ==
      (if a.status == s then 1 else 0) + (if b.status == s then 1 else 0) + (if c.status == s then 1 else 0)
      + (if d.status == s then 1 else 0) + (if e.status == s then 1 else 0)
  {
    assert [] + [a] == [a] && [a] + [b] == [a, b] && [a, b] + [c] == [a, b, c];
    assert [a, b, c] + [d] == [a, b, c, d] && [a, b, c, d] + [e] == [a, b, c, d, e];
    CountStatusSnoc([], a, s);
    CountStatusSnoc([a], b, s);
    CountStatusSnoc([a, b], c, s);
    CountStatusSnoc([a, b, c], d, s);
    CountStatusSnoc([a, b, c, d], e, s);
  }

  /** The component's own state: the panel flag and the active status filter. */
  class StatusDropdown {
    var isOpen: bool
    var selectedStatuses: seq<Status>

    /** The filter is never empty and never lists a status twice. */
    ghost predicate Valid()
      reads this
    {
      |selectedStatuses| > 0 && NoDup(selectedStatuses)
    }

    constructor ()
      ensures Valid()
      ensures !isOpen && selectedStatuses == AllStatuses
    {
      isOpen := false;
      selectedStatuses := AllStatuses;
    }

    /** A filter button's `onClick={() => toggleStatus(status)}`. */
    method ToggleStatus(status: Status)
      requires Valid()
      modifies this`selectedStatuses
      ensures Valid()
      ensures selectedStatuses == StatusToggled(old(selectedStatuses), status)
    {
      StatusToggledKeepsFilterValid(selectedStatuses, status);
      selectedStatuses := StatusToggled(selectedStatuses, status);
    }

    /** The chevron's `onClick={() => setIsOpen(!isOpen)}`. */
    method TogglePanel()
      modifies this`isOpen
      ensures isOpen == !old(isOpen)
    {
      isOpen := !isOpen;
    }

    /** The groups shown for the job list `files` at time `now`. */
    function Shown(files: seq<TtsFile>, now: int): (r: seq<Group>)
      reads this
      ensures r == Categorized(Filter(StatusIn(selectedStatuses), files), now)
    {
      VisibleGroupsIsGroupingOfFiltered(files, now, CategoryOrder, selectedStatuses);
      VisibleGroups(Categorized(files, now), selectedStatuses)
    }
  }
}
