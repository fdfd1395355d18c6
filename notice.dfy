/** The `Notice` entity: an announcement that is published, pinned, counted when viewed,
    and active until its expiry. */
module Notices {
  import opened Common
  import opened Time
  import opened Text
  import opened BaseEntities

  /** The name of a `NoticeType` constant; types are only compared. */
  type NoticeType = string

  /** What persisting a notice checks (`validateNotice`): `None` when it may be stored. */
  function Validation(title: Option<string>, content: Option<string>): (r: Option<Exception>)
    ensures r.None? <==> title.Some? && !IsBlank(title.value) && content.Some? && !IsBlank(content.value)
    ensures r.Some? ==> r.value.IllegalArgument?
  {
    if title.None? || IsBlank(title.value) then Some(IllegalArgument("Notice title is required"))
    else if content.None? || IsBlank(content.value) then Some(IllegalArgument("Notice content is required"))
    else None
  }

  /** The publication fields, as one value. */
  datatype Publication = Publication(isPublished: bool, publishDate: Option<LocalDateTime>)

  const Draft: Publication := Publication(false, None)

  /** `publish()` at time `now`. */
  function PublishStep(p: Publication, now: LocalDateTime): Result<Publication> {
    if p.isPublished then Err(IllegalState("Notice is already published"))
    else Ok(Publication(true, Some(now)))
  }

  /** `unpublish()`: no guard; it returns the notice to a draft. */
  function UnpublishStep(p: Publication): Publication {
    Publication(false, None)
  }

  /** Publishing succeeds exactly on an unpublished notice; unpublishing always leads back
      to a state where publishing succeeds again, stamped with the new time. */
  lemma RepublishAfterUnpublish(p: Publication, t1: LocalDateTime, t2: LocalDateTime)
    ensures PublishStep(p, t1).Ok? <==> !p.isPublished
    ensures PublishStep(p, t1).Ok? ==> PublishStep(PublishStep(p, t1).value, t2).Err?
    ensures PublishStep(UnpublishStep(p), t2) == Ok(Publication(true, Some(t2)))
  {
  }

  /** The notice as the repository queries see it. */
  datatype NoticeRecord = NoticeRecord(
    id: nat,
    title: string,
    content: string,
    noticeType: NoticeType,
    isPublished: bool,
    publishDate: Option<LocalDateTime>,
    expiryDate: Option<LocalDateTime>,
    isPinned: bool,
    authorId: nat,
    isDeleted: bool)

  /** `isActive()` at time `now`: published, not past its expiry, and not deleted. At the
      expiry instant itself the notice is still active. */
  predicate ActiveAt(n: NoticeRecord, now: LocalDateTime) {
    if !n.isPublished then false
    else if n.expiryDate.Some? && IsAfter(now, n.expiryDate.value) then false
    else !n.isDeleted
  }

  class Notice {
    const base: BaseEntity
    var title: string
    var content: string
    var noticeType: NoticeType
    var isPublished: bool
    var publishDate: Option<LocalDateTime>
    var expiryDate: Option<LocalDateTime>
    var isPinned: bool
    /** The author's id; the author never changes. */
    const authorId: nat
    var attachmentUrl: Option<string>
    var viewCount: int

    function PublicationState(): Publication
      reads this
    {
      Publication(isPublished, publishDate)
    }

    function Record(): NoticeRecord
      reads this, base
    {
      NoticeRecord(base.id, title, content, noticeType, isPublished, publishDate, expiryDate, isPinned, authorId, base.isDeleted)
    }

    /** A new notice: a draft, not pinned, never viewed. */
    constructor (id: nat, title: string, content: string, noticeType: NoticeType, expiryDate: Option<LocalDateTime>,
                 authorId: nat, attachmentUrl: Option<string>)
      ensures fresh(base) && base.State() == NeverDeleted
      ensures Record() == NoticeRecord(id, title, content, noticeType, false, None, expiryDate, false, authorId, false)
      ensures this.attachmentUrl == attachmentUrl && viewCount == 0
    {
      base := new BaseEntity(id);
      this.title := title;
      this.content := content;
      this.noticeType := noticeType;
      isPublished := false;
      publishDate := None;
      this.expiryDate := expiryDate;
      isPinned := false;
      this.authorId := authorId;
      this.attachmentUrl := attachmentUrl;
      viewCount := 0;
    }

    /** `publish()`: refused when already published, with nothing changed. */
    method Publish(now: LocalDateTime) returns (r: Result<Unit>)
      modifies this
      ensures var s := PublishStep(old(PublicationState()), now);
              (r.Ok? <==> s.Ok?) && (r.Err? ==> r.error == s.error)
              && PublicationState() == (if s.Ok? then s.value else old(PublicationState()))
      ensures Record() == old(Record()).(isPublished := isPublished, publishDate := publishDate)
      ensures attachmentUrl == old(attachmentUrl) && viewCount == old(viewCount)
    {
      if isPublished {
        return Err(IllegalState("Notice is already published"));
      }
      isPublished := true;
      publishDate := Some(now);
      return Ok(Unit);
    }

    /** `unpublish()`. */
    method Unpublish()
      modifies this
      ensures PublicationState() == UnpublishStep(old(PublicationState()))
      ensures Record() == old(Record()).(isPublished := false, publishDate := None)
      ensures attachmentUrl == old(attachmentUrl) && viewCount == old(viewCount)
    {
      isPublished := false;
      publishDate := None;
    }

    /** `pin()`: idempotent, and nothing else changes. */
    method Pin()
      modifies this
      ensures Record() == old(Record()).(isPinned := true)
      ensures attachmentUrl == old(attachmentUrl) && viewCount == old(viewCount)
    {
      isPinned := true;
    }

    /** `unpin()`: idempotent, and nothing else changes. */
    method Unpin()
      modifies this
      ensures Record() == old(Record()).(isPinned := false)
      ensures attachmentUrl == old(attachmentUrl) && viewCount == old(viewCount)
    {
      isPinned := false;
    }

    /** `incrementViewCount()`: one more view, with `Integer` wrap-around. */
    method IncrementViewCount()
      requires MinInt <= viewCount <= MaxInt
      modifies this
      ensures viewCount == IncrementInt32(old(viewCount))
      ensures Record() == old(Record()) && attachmentUrl == old(attachmentUrl)
    {
      if viewCount == MaxInt {
        viewCount := MinInt;
      } else {
        viewCount := viewCount + 1;
      }
    }

    /** `isActive()` at time `now`. */
    predicate IsActive(now: LocalDateTime)
      reads this, base
    {
      ActiveAt(Record(), now)
    }
  }
}
