/**
 * The request sent to the insurer, in its first form: the factory records the user, the XML and the
 * submission time, stamps the creation time from the clock and sets the status to SENT. The entity
 * has no setters, so it is a value; the identity the database assigns on save is left empty here.
 * The clock is a parameter: the local date-time it reads.
 */
module InsuranceRequests {
  import opened Wrappers
  import InsuranceXml

  /** InsuranceRequestStatus: only SENT is named by the code; any other status is carried by its name. */
  datatype RequestStatus = SENT | OtherStatus(name: string)

  datatype InsuranceRequest = InsuranceRequest(id: Option<int>, userId: int, status: RequestStatus,
                                               xmlContent: Option<string>, createdAt: InsuranceXml.LocalDateTime,
                                               submittedAt: Option<InsuranceXml.LocalDateTime>)

  /**
   * submitted: status SENT, the user and the XML as given, submittedAt the argument and createdAt the
   * clock's time, whatever the argument says; no identity before the save.
   */
  function Submitted(userId: int, submittedAt: Option<InsuranceXml.LocalDateTime>, xmlContent: Option<string>,
                     now: InsuranceXml.LocalDateTime): (r: InsuranceRequest)
    ensures r.status == SENT && r.id.None?
    ensures r.userId == userId && r.xmlContent == xmlContent
    ensures r.submittedAt == submittedAt && r.createdAt == now
  {
    InsuranceRequest(None, userId, SENT, xmlContent, now, submittedAt)
  }

  /**
   * The creation time is the clock's, not the caller's: two requests built at the same moment have
   * the same createdAt whatever submission times they were given, and a request submitted "at" some
   * time other than now does not carry that time as its creation time.
   */
  lemma CreatedAtFromClock(userId: int, a: Option<InsuranceXml.LocalDateTime>, b: Option<InsuranceXml.LocalDateTime>,
                           xmlContent: Option<string>, now: InsuranceXml.LocalDateTime)
    ensures Submitted(userId, a, xmlContent, now).createdAt == Submitted(userId, b, xmlContent, now).createdAt
    ensures a.Some? && a.value != now ==> Submitted(userId, a, xmlContent, now).createdAt != a.value
  {
  }
}

/**
 * The request sent to the insurer, in its second form: a mutable entity with setters whose factory
 * takes the creation time from the caller, and a pre-persist hook that fills a missing creation time
 * from the clock and a missing status with SENT, never overwriting a value that is present.
 */
module AuditedInsuranceRequests {
  import opened Wrappers
  import InsuranceXml
  import InsuranceRequests

  /** The entity's fields, every one nullable in the object. */
  datatype RequestState = RequestState(id: Option<int>, userId: Option<int>, createdAt: Option<InsuranceXml.LocalDateTime>,
                                       status: Option<InsuranceRequests.RequestStatus>, xmlContent: Option<string>)

  /** ensureAuditFields on the fields: a null createdAt becomes now, a null status SENT. */
  function AuditFilled(s: RequestState, now: InsuranceXml.LocalDateTime): (r: RequestState)
    ensures r.createdAt.Some? && r.status.Some?
    ensures s.createdAt.Some? ==> r.createdAt == s.createdAt
    ensures s.createdAt.None? ==> r.createdAt == Some(now)
    ensures s.status.Some? ==> r.status == s.status
    ensures s.status.None? ==> r.status == Some(InsuranceRequests.SENT)
    ensures r.id == s.id && r.userId == s.userId && r.xmlContent == s.xmlContent
  {
    s.(createdAt := if s.createdAt.None? then Some(now) else s.createdAt,
       status := if s.status.None? then Some(InsuranceRequests.SENT) else s.status)
  }

  /** The fields submitted sets: user, creation time and XML as given, status SENT, no identity. */
  function SubmittedState(userId: Option<int>, createdAt: Option<InsuranceXml.LocalDateTime>, xmlContent: Option<string>): RequestState {
    RequestState(None, userId, createdAt, Some(InsuranceRequests.SENT), xmlContent)
  }

  /** Filling the audit fields twice is filling them once, whatever the clock says the second time. */
  lemma AuditFilledIdempotent(s: RequestState, now: InsuranceXml.LocalDateTime, later: InsuranceXml.LocalDateTime)
    ensures AuditFilled(AuditFilled(s, now), later) == AuditFilled(s, now)
  {
  }

  /** A state whose audit fields are both set is the hook's fixed point, and only such a state is. */
  lemma AuditFilledFixedPoint(s: RequestState, now: InsuranceXml.LocalDateTime)
    ensures AuditFilled(s, now) == s <==> s.createdAt.Some? && s.status.Some?
  {
  }

  /** A request from submitted keeps its fields on persist, except a null creation time which becomes now. */
  lemma SubmittedThenPersisted(userId: Option<int>, createdAt: Option<InsuranceXml.LocalDateTime>, xmlContent: Option<string>,
                               now: InsuranceXml.LocalDateTime)
    ensures createdAt.Some? ==> AuditFilled(SubmittedState(userId, createdAt, xmlContent), now) == SubmittedState(userId, createdAt, xmlContent)
    ensures createdAt.None? ==> AuditFilled(SubmittedState(userId, createdAt, xmlContent), now) == SubmittedState(userId, Some(now), xmlContent)
  {
  }

  class InsuranceRequest {
    var id: Option<int>
    var userId: Option<int>
    var createdAt: Option<InsuranceXml.LocalDateTime>
    var status: Option<InsuranceRequests.RequestStatus>
    var xmlContent: Option<string>

    function State(): RequestState
      reads this
    {
      RequestState(id, userId, createdAt, status, xmlContent)
    }

    /** The no-argument constructor: every field null. */
    constructor ()
      ensures State() == RequestState(None, None, None, None, None)
    {
      id, userId, createdAt, status, xmlContent := None, None, None, None, None;
    }

    method SetUserId(value: Option<int>)
      modifies this
      ensures State() == old(State()).(userId := value)
    {
      userId := value;
    }

    method SetCreatedAt(value: Option<InsuranceXml.LocalDateTime>)
      modifies this
      ensures State() == old(State()).(createdAt := value)
    {
      createdAt := value;
    }

    method SetStatus(value: Option<InsuranceRequests.RequestStatus>)
      modifies this
      ensures State() == old(State()).(status := value)
    {
      status := value;
    }

    method SetXmlContent(value: Option<string>)
      modifies this
      ensures State() == old(State()).(xmlContent := value)
    {
      xmlContent := value;
    }

    /** submitted: a new entity filled through its setters. */
    static method Submitted(userId: Option<int>, createdAt: Option<InsuranceXml.LocalDateTime>, xmlContent: Option<string>)
      returns (request: InsuranceRequest)
      ensures fresh(request)
      ensures request.State() == SubmittedState(userId, createdAt, xmlContent)
    {
      request := new InsuranceRequest();
      request.SetUserId(userId);
      request.SetCreatedAt(createdAt);
      request.SetStatus(Some(InsuranceRequests.SENT));
      request.SetXmlContent(xmlContent);
    }

    /** The pre-persist hook, with the clock's time as a parameter. */
    method EnsureAuditFields(now: InsuranceXml.LocalDateTime)
      modifies this
      ensures State() == AuditFilled(old(State()), now)
    {
      if createdAt.None? {
        createdAt := Some(now);
      }
      if status.None? {
        status := Some(InsuranceRequests.SENT);
      }
    }
  }
}
