/** `NoticeRepository`: the notice queries as functions over the table's records, with the
    `ORDER BY` of each query as a sort by the corresponding order. */
module NoticeRepository {
  import opened Common
  import opened Time
  import opened Text
  import opened Notices
  import opened Sorting

  /** The `WHERE` of `findPublicNotices(now)`: published, not deleted, and with no expiry or
      one strictly later than `now`. */
  predicate PublicAt(n: NoticeRecord, now: LocalDateTime) {
    n.isPublished && !n.isDeleted && (n.expiryDate.None? || IsAfter(n.expiryDate.value, now))
  }

  function PublicFilter(now: LocalDateTime): NoticeRecord -> bool {
    (n: NoticeRecord) => PublicAt(n, now)
  }

  /** `publishDate DESC` for two dates that may be NULL: `a` may come first when it is not
      earlier than `b`. A NULL date is placed last, as MySQL and H2 order NULLs under `DESC`;
      the query names no `NULLS FIRST`/`NULLS LAST`. */
  predicate NewerOrSame(a: Option<LocalDateTime>, b: Option<LocalDateTime>) {
    b.None? || (a.Some? && !IsBefore(a.value, b.value))
  }

  /** `ORDER BY isPinned DESC, publishDate DESC`: pinned notices first, then the newest. */
  predicate PublicOrder(a: NoticeRecord, b: NoticeRecord) {
    (a.isPinned && !b.isPinned) || (a.isPinned == b.isPinned && NewerOrSame(a.publishDate, b.publishDate))
  }

  /** `ORDER BY publishDate DESC`. */
  predicate PinnedOrder(a: NoticeRecord, b: NoticeRecord) {
    NewerOrSame(a.publishDate, b.publishDate)
  }

  lemma NewerOrSameIsTotalPreorder()
    ensures forall a, b :: NewerOrSame(a, b) || NewerOrSame(b, a)
    ensures forall a, b, c :: NewerOrSame(a, b) && NewerOrSame(b, c) ==> NewerOrSame(a, c)
  {
    forall a: Option<LocalDateTime>, b: Option<LocalDateTime> ensures NewerOrSame(a, b) || NewerOrSame(b, a) {
      if a.Some? && b.Some? {
        OrderTrichotomy(a.value, b.value);
      }
    }
    forall a: Option<LocalDateTime>, b: Option<LocalDateTime>, c: Option<LocalDateTime> | NewerOrSame(a, b) && NewerOrSame(b, c)
      ensures NewerOrSame(a, c)
    {
      if c.Some? && IsBefore(a.value, c.value) {
        OrderTrichotomy(a.value, b.value);
        OrderTrichotomy(b.value, c.value);
        if IsBefore(b.value, a.value) {
          OrderTransitive(b.value, a.value, c.value);
        }
      }
    }
  }

  /** Both orders are total preorders, so sorting by them is well defined up to ties. */
  lemma PublicOrderIsTotalPreorder()
    ensures forall a, b :: PublicOrder(a, b) || PublicOrder(b, a)
    ensures forall a, b, c :: PublicOrder(a, b) && PublicOrder(b, c) ==> PublicOrder(a, c)
  {
    NewerOrSameIsTotalPreorder();
  }

  /** `findPublicNotices(now)`: the public notices, pinned ones first and newest first within
      each group. */
  function FindPublicNotices(ns: seq<NoticeRecord>, now: LocalDateTime): (r: seq<NoticeRecord>)
    ensures multiset(r) == multiset(Filter(ns, PublicFilter(now)))
    ensures SortedBy(r, PublicOrder)
  {
    PublicOrderIsTotalPreorder();
    SortBySorts(Filter(ns, PublicFilter(now)), PublicOrder);
    SortBy(Filter(ns, PublicFilter(now)), PublicOrder)
  }

  /** A notice is listed as public exactly when it is published, not deleted and not expired. */
  lemma PublicNoticesAreExactlyUnexpired(ns: seq<NoticeRecord>, now: LocalDateTime, k: nat)
    requires k < |ns|
    ensures ns[k] in FindPublicNotices(ns, now) <==> PublicAt(ns[k], now)
  {
    var f := Filter(ns, PublicFilter(now));
    var r := FindPublicNotices(ns, now);
    assert ns[k] in r <==> ns[k] in multiset(r);
    if ns[k] in r {
      assert ns[k] in multiset(f);
      assert PublicFilter(now)(ns[k]);
    }
  }

  /** The entity and the query agree except at the expiry instant: a notice whose expiry is
      exactly `now` is active by `isActive()` but not listed as public. */
  lemma ActiveAndPublicDisagreeOnlyAtExpiry(n: NoticeRecord, now: LocalDateTime)
    ensures PublicAt(n, now) <==> ActiveAt(n, now) && n.expiryDate != Some(now)
    ensures n.isPublished && !n.isDeleted && n.expiryDate == Some(now) ==> ActiveAt(n, now) && !PublicAt(n, now)
  {
    if n.expiryDate.Some? {
      OrderTrichotomy(n.expiryDate.value, now);
    }
  }

  /** `findPinnedNotices()`: pinned, published and not deleted, newest first. The expiry date
      is not consulted. */
  predicate PinnedListed(n: NoticeRecord) {
    n.isPinned && n.isPublished && !n.isDeleted
  }

  function FindPinnedNotices(ns: seq<NoticeRecord>): (r: seq<NoticeRecord>)
    ensures multiset(r) == multiset(Filter(ns, PinnedListed))
    ensures SortedBy(r, PinnedOrder)
  {
    NewerOrSameIsTotalPreorder();
    SortBySorts(Filter(ns, PinnedListed), PinnedOrder);
    SortBy(Filter(ns, PinnedListed), PinnedOrder)
  }

  /** A pinned notice stays in the pinned list after its expiry, while the public list drops it. */
  lemma ExpiredPinnedNoticeIsStillListed(n: NoticeRecord, now: LocalDateTime)
    requires PinnedListed(n) && n.expiryDate.Some? && IsBefore(n.expiryDate.value, now)
    ensures n in FindPinnedNotices([n])
    ensures n !in FindPublicNotices([n], now)
  {
    assert PinnedListed(n);
    assert Filter([n], PinnedListed) == [n];
    assert n in multiset(FindPinnedNotices([n]));
    OrderTrichotomy(n.expiryDate.value, now);
    PublicNoticesAreExactlyUnexpired([n], now, 0);
  }

  /** `searchNotices(type, isPublished, search)`: a NULL type or publication filter admits
      every notice; the term must occur, ignoring case, in the title or the content. A NULL
      term matches nothing. */
  predicate SearchMatches(n: NoticeRecord, noticeType: Option<NoticeType>, isPublished: Option<bool>, search: Option<string>) {
    && (noticeType.None? || n.noticeType == noticeType.value)
    && (isPublished.None? || n.isPublished == isPublished.value)
    && search.Some?
    && (LikeIgnoreCase(n.title, search.value) || LikeIgnoreCase(n.content, search.value))
  }

  function SearchNotices(ns: seq<NoticeRecord>, noticeType: Option<NoticeType>, isPublished: Option<bool>, search: Option<string>)
    : (r: seq<NoticeRecord>)
    ensures forall i :: 0 <= i < |r| ==> r[i] in ns && SearchMatches(r[i], noticeType, isPublished, search)
    ensures forall i :: 0 <= i < |ns| && SearchMatches(ns[i], noticeType, isPublished, search) ==> ns[i] in r
  {
    Filter(ns, (n: NoticeRecord) => SearchMatches(n, noticeType, isPublished, search))
  }

  /** With both filters NULL and an empty term the search lists every notice, drafts and
      deleted ones included. */
  lemma SearchWildcards(ns: seq<NoticeRecord>)
    ensures SearchNotices(ns, None, None, Some("")) == ns
  {
    forall n: NoticeRecord ensures LikeIgnoreCase(n.title, "") {
      EmptyTermMatchesAll(n.title);
    }
    FilterAll(ns, (n: NoticeRecord) => SearchMatches(n, None, None, Some("")));
  }
}
