/**
 * The computations of `dashboard_view`: which page of the user list is
 * shown, the seven-day daily-active-users series, and the content
 * distribution pair.  Users are given by their `last_login` date as a
 * day number (None for a user who never logged in); the date label
 * format and Python's `int()` on the `page` parameter are given
 * functions.  Pagination follows Django's `Paginator` with ten users per
 * page, no orphans and an empty first page allowed.
 */
module DashboardView {
  import opened Wrappers

  // ------------------------------------------------------------ pagination

  const PerPage := 10

  /** `paginator.num_pages`: at least one page, even for an empty list. */
  function NumPages(count: nat): (n: nat)
    ensures n >= 1
    ensures count <= n * PerPage
    ensures count == 0 || (n - 1) * PerPage < count
  {
    if count == 0 then 1 else (count + PerPage - 1) / PerPage
  }

  /**
   * The page number shown: the `page` parameter when it is an integer
   * between 1 and the number of pages, page 1 when it is absent, not an
   * integer (`PageNotAnInteger`) or out of range (`EmptyPage`).
   */
  function SelectPage(count: nat, param: Option<string>, parseInt: string -> Option<int>): (p: nat)
    ensures 1 <= p <= NumPages(count)
    ensures param.Some? && parseInt(param.value).Some? && 1 <= parseInt(param.value).value <= NumPages(count)
            ==> p == parseInt(param.value).value
    ensures param.None? || parseInt(param.value).None? ==> p == 1
    ensures param.Some? && parseInt(param.value).Some? && !(1 <= parseInt(param.value).value <= NumPages(count))
            ==> p == 1
  {
    match param
    case None => 1
    case Some(text) =>
      match parseInt(text)
      case None => 1
      case Some(n) => if 1 <= n <= NumPages(count) then n else 1
  }

  /** The users on page `page` (1-based): a slice of at most ten. */
  function PageItems<T>(items: seq<T>, page: nat): (r: seq<T>)
    requires 1 <= page <= NumPages(|items|)
    ensures |r| <= PerPage
    ensures |items| > 0 ==> |r| > 0
  {
    var bottom := (page - 1) * PerPage;
    var top := if bottom + PerPage >= |items| then |items| else bottom + PerPage;
    items[bottom..top]
  }

  /** Pages 1 through k, concatenated. */
  function PagesUpTo<T>(items: seq<T>, k: nat): seq<T>
    requires k <= NumPages(|items|)
  {
    if k == 0 then [] else PagesUpTo(items, k - 1) + PageItems(items, k)
  }

  lemma {:induction false} PagesUpToIsPrefix<T>(items: seq<T>, k: nat)
    requires k <= NumPages(|items|)
    ensures PagesUpTo(items, k) == items[..if k * PerPage <= |items| then k * PerPage else |items|]
  {
    if k > 0 {
      PagesUpToIsPrefix(items, k - 1);
      var lo := (k - 1) * PerPage;
      assert lo <= |items|;
      var hi := if k * PerPage <= |items| then k * PerPage else |items|;
      assert items[..lo] + items[lo..hi] == items[..hi];
    }
  }

  /** The pages partition the user list: in order, they hold every user exactly once. */
  lemma PagesPartitionList<T>(items: seq<T>)
    ensures PagesUpTo(items, NumPages(|items|)) == items
  {
    PagesUpToIsPrefix(items, NumPages(|items|));
    assert items[..|items|] == items;
  }

  // -------------------------------------------------- daily active users

  /** The number of users whose last login fell on `day`. */
  function CountOn(lastLogins: seq<Option<int>>, day: int): (n: nat)
    ensures n <= |lastLogins|
    decreases |lastLogins|
  {
    if |lastLogins| == 0 then 0
    else CountOn(lastLogins[..|lastLogins| - 1], day) + (if lastLogins[|lastLogins| - 1] == Some(day) then 1 else 0)
  }

  /** The number of users whose last login fell in the days lo .. hi - 1. */
  function CountBetween(lastLogins: seq<Option<int>>, lo: int, hi: int): (n: nat)
    ensures n <= |lastLogins|
    decreases |lastLogins|
  {
    if |lastLogins| == 0 then 0
    else
      var last := lastLogins[|lastLogins| - 1];
      CountBetween(lastLogins[..|lastLogins| - 1], lo, hi) + (if last.Some? && lo <= last.value < hi then 1 else 0)
  }

  /** The counts of n consecutive days starting at lo, oldest first. */
  function Window(lastLogins: seq<Option<int>>, lo: int, n: nat): (r: seq<nat>)
    ensures |r| == n
    ensures forall k :: 0 <= k < n ==> r[k] == CountOn(lastLogins, lo + k)
    decreases n
  {
    if n == 0 then [] else [CountOn(lastLogins, lo)] + Window(lastLogins, lo + 1, n - 1)
  }

  function Sum(s: seq<nat>): nat
    decreases |s|
  {
    if |s| == 0 then 0 else s[0] + Sum(s[1..])
  }

  lemma {:induction false} CountBetweenSplit(lastLogins: seq<Option<int>>, lo: int, hi: int)
    requires lo < hi
    ensures CountBetween(lastLogins, lo, hi) == CountOn(lastLogins, lo) + CountBetween(lastLogins, lo + 1, hi)
    decreases |lastLogins|
  {
    if |lastLogins| > 0 {
      CountBetweenSplit(lastLogins[..|lastLogins| - 1], lo, hi);
    }
  }

  lemma {:induction false} WindowSumIsCountBetween(lastLogins: seq<Option<int>>, lo: int, n: nat)
    ensures Sum(Window(lastLogins, lo, n)) == CountBetween(lastLogins, lo, lo + n)
    decreases n
  {
    if n == 0 {
      CountBetweenEmpty(lastLogins, lo);
    } else {
      var w := Window(lastLogins, lo, n);
      assert w[1..] == Window(lastLogins, lo + 1, n - 1);
      WindowSumIsCountBetween(lastLogins, lo + 1, n - 1);
      CountBetweenSplit(lastLogins, lo, lo + n);
    }
  }

  lemma {:induction false} CountBetweenEmpty(lastLogins: seq<Option<int>>, lo: int)
    ensures CountBetween(lastLogins, lo, lo) == 0
    decreases |lastLogins|
  {
    if |lastLogins| > 0 {
      CountBetweenEmpty(lastLogins[..|lastLogins| - 1], lo);
    }
  }

  /**
   * Each user has one last login, so the seven daily counts add up to the
   * number of users who logged in during the week, never to more users
   * than there are.
   */
  lemma DauTotalAtMostUsers(lastLogins: seq<Option<int>>, today: int)
    ensures Sum(Window(lastLogins, today - 6, 7)) == CountBetween(lastLogins, today - 6, today + 1)
    ensures Sum(Window(lastLogins, today - 6, 7)) <= |lastLogins|
  {
    WindowSumIsCountBetween(lastLogins, today - 6, 7);
  }

  /** The DAU loop: for i = 6 down to 0, the day `today - i`, its label and its count. */
  method DailyActiveUsers(today: int, lastLogins: seq<Option<int>>, dateLabel: int -> string)
    returns (dauLabels: seq<string>, dauValues: seq<nat>)
    ensures |dauLabels| == 7 && |dauValues| == 7
    ensures forall k :: 0 <= k < 7 ==> dauLabels[k] == dateLabel(today - 6 + k)
    ensures dauValues == Window(lastLogins, today - 6, 7)
  {
    dauLabels := [];
    dauValues := [];
    var i := 6;
    while i >= 0
      invariant -1 <= i <= 6
      invariant |dauLabels| == 6 - i && |dauValues| == 6 - i
      invariant forall k :: 0 <= k < 6 - i ==> dauLabels[k] == dateLabel(today - 6 + k)
      invariant forall k :: 0 <= k < 6 - i ==> dauValues[k] == CountOn(lastLogins, today - 6 + k)
    {
      var day := today - i;
      var dauCount := CountOn(lastLogins, day);
      dauLabels := dauLabels + [dateLabel(day)];
      dauValues := dauValues + [dauCount];
      i := i - 1;
    }
  }

  // ------------------------------------------------ content distribution

  datatype ContentKind = Posts | Comments | Likes | Bookmarks

  /** The four `.count()` results. */
  datatype ContentCounts = ContentCounts(posts: nat, comments: nat, likes: nat, bookmarks: nat)

  function CountOf(c: ContentCounts, k: ContentKind): nat {
    match k
    case Posts => c.posts
    case Comments => c.comments
    case Likes => c.likes
    case Bookmarks => c.bookmarks
  }

  /** The chart label of each kind. */
  function LabelOf(k: ContentKind): string {
    match k
    case Posts => "게시글"
    case Comments => "댓글"
    case Likes => "좋아요"
    case Bookmarks => "북마크"
  }

  /** The kind a label names, if any. */
  function KindOfLabel(name: string): (k: Option<ContentKind>)
    ensures k.Some? ==> LabelOf(k.value) == name
  {
    if name == "게시글" then Some(Posts)
    else if name == "댓글" then Some(Comments)
    else if name == "좋아요" then Some(Likes)
    else if name == "북마크" then Some(Bookmarks)
    else None
  }

  /** Distinct kinds have distinct labels, and every label names its kind back. */
  lemma LabelsNameTheirKind(k: ContentKind)
    ensures KindOfLabel(LabelOf(k)) == Some(k)
  {
  }

  /**
   * The distribution pair: four labels and four values, value i being
   * the count of the kind label i names.
   */
  function ContentDistribution(counts: ContentCounts): (r: (seq<string>, seq<nat>))
    ensures |r.0| == 4 && |r.1| == 4
    ensures forall i :: 0 <= i < 4 ==> KindOfLabel(r.0[i]).Some? && r.1[i] == CountOf(counts, KindOfLabel(r.0[i]).value)
    ensures forall i, j :: 0 <= i < j < 4 ==> r.0[i] != r.0[j]
  {
    var labels := ["게시글", "댓글", "좋아요", "북마크"];
    var values := [counts.posts, counts.comments, counts.likes, counts.bookmarks];
    assert labels == [LabelOf(Posts), LabelOf(Comments), LabelOf(Likes), LabelOf(Bookmarks)];
    (labels, values)
  }
}
