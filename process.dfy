/**
  `processEvent` for one notification. The outcome records the calls the
  handler makes to the two services, in the order it issues them, and how
  the call ends: it ignores the message, stops for lack of a hosted zone,
  completes, or throws. Service replies are parameters: the reply to the tag
  lookup, the reply to the certificate description, and the DNS service's
  answer to each change request (`None` when it succeeds).
*/
module Processing {
  import opened Wrappers
  import opened Text
  import opened ArnExtraction
  import opened Acm
  import opened Route53

  /** The error a service call rejects with. */
  type ServiceError = string

  const CreateInProgress: string := "ResourceStatus='CREATE_IN_PROGRESS'"
  const CertificateType: string := "ResourceType='AWS::CertificateManager::Certificate'"
  const PhysicalResourceIdKey: string := "PhysicalResourceId="

  datatype Call =
    | ListTagsForCertificate(certificateArn: string)
    | DescribeCertificate(certificateArn: string)
    | ChangeResourceRecordSets(request: ChangeRequest)

  datatype Error =
    | NoPhysicalResourceId           // `result[1]` on the `null` that `exec` returned
    | TagLookupFailed(cause: ServiceError)
    | DescribeFailed(cause: ServiceError)
    | MissingResourceRecord          // `record.Name` on an undefined `ResourceRecord`
    | ChangeFailed(cause: ServiceError)

  datatype Ending = Ignored | NoHostedZone | Completed | Threw(error: Error)

  datatype Outcome = Outcome(calls: seq<Call>, ending: Ending)

  /**
    The DNS service's answer (`None` when it accepts) to the change request
    sent by the `i`-th `createCNAMERecord` call. The calls run concurrently, so
    two identical requests may get different answers: Route 53 accepts the
    first CREATE of a record set and rejects a second one as a duplicate.
  */
  type DnsAnswers = (nat, ChangeRequest) -> Option<ServiceError>

  /** One `createCNAMERecord` call: it failed before sending, or it sent a request and got an answer. */
  datatype Attempt = NotSent(error: Error) | Sent(request: ChangeRequest, failure: Option<ServiceError>)

  /** The three `indexOf` tests that decide whether the handler acts at all. */
  predicate IsCertificateCreation(message: string)
    ensures IsCertificateCreation(message) <==>
      (exists i :: OccursAt(message, CreateInProgress, i))
      && (exists i :: OccursAt(message, CertificateType, i))
      && (exists i :: OccursAt(message, PhysicalResourceIdKey, i))
  {
    IndexOf(message, CreateInProgress) != -1
    && IndexOf(message, CertificateType) != -1
    && IndexOf(message, PhysicalResourceIdKey) != -1
  }

  /**
    `getHostedZoneIdForCertificate`: a failed tag lookup is rethrown; otherwise
    the zone of the first `HostedZoneId` tag, or `None`.
  */
  function HostedZoneIdForCertificate(reply: Result<seq<Tag>, ServiceError>): (r: Result<Option<string>, Error>)
    ensures reply.Failure? <==> r.Failure?
    ensures reply.Failure? ==> r.error == TagLookupFailed(reply.error)
    ensures reply.Success? ==> r.value.None? == forall i :: 0 <= i < |reply.value| ==> !IsZoneTag(reply.value[i])
    ensures reply.Success? ==> r.value == HostedZoneIdForTags(reply.value)
  {
    match reply
    case Failure(e) => Failure(TagLookupFailed(e))
    case Success(tags) => Success(HostedZoneIdForTags(tags))
  }

  /**
    `getResourceRecordsForCertificate`: a failed description is rethrown;
    otherwise one entry per validation option, in order, absent ones included.
  */
  function ResourceRecordsForCertificate(reply: Result<seq<DomainValidation>, ServiceError>)
    : (r: Result<seq<Option<ResourceRecord>>, Error>)
    ensures reply.Failure? <==> r.Failure?
    ensures reply.Failure? ==> r.error == DescribeFailed(reply.error)
    ensures reply.Success? ==>
      |r.value| == |reply.value| && forall i :: 0 <= i < |reply.value| ==> r.value[i] == reply.value[i].resourceRecord
  {
    match reply
    case Failure(e) => Failure(DescribeFailed(e))
    case Success(options) => Success(ResourceRecordsOf(options))
  }

  /**
    `createCNAMERecord` as the `attempt`-th call of the fan-out: an absent
    record fails before any call; otherwise the CREATE request for the record
    is sent to the zone, and the service's failure, if any, is kept (it is
    rethrown, not swallowed).
  */
  function CreateCnameRecord(record: Option<ResourceRecord>, hostedZoneId: string,
                             respond: DnsAnswers, attempt: nat): (a: Attempt)
    ensures a.NotSent? <==> record.None?
    ensures a.NotSent? ==> a.error == MissingResourceRecord
    ensures a.Sent? ==> CreatedRecord(a.request) == record && a.request.hostedZoneId == hostedZoneId
    ensures a.Sent? ==> a.failure == respond(attempt, a.request)
  {
    match record
    case None => NotSent(MissingResourceRecord)
    case Some(r) =>
      var request := CnameChangeRequest(r, hostedZoneId);
      Sent(request, respond(attempt, request))
  }

  /** The attempts for `records`, numbered from `first`. */
  function CreateAllFrom(records: seq<Option<ResourceRecord>>, hostedZoneId: string,
                         respond: DnsAnswers, first: nat): (r: seq<Attempt>)
    ensures |r| == |records|
    ensures forall i :: 0 <= i < |records| ==> r[i] == CreateCnameRecord(records[i], hostedZoneId, respond, first + i)
  {
    if records == [] then []
    else [CreateCnameRecord(records[0], hostedZoneId, respond, first)] + CreateAllFrom(records[1..], hostedZoneId, respond, first + 1)
  }

  /** `resource_records.map(record => createCNAMERecord(record, hostedZoneId))`: one independent attempt per record. */
  function CreateAll(records: seq<Option<ResourceRecord>>, hostedZoneId: string, respond: DnsAnswers): (r: seq<Attempt>)
    ensures |r| == |records|
    ensures forall i :: 0 <= i < |records| ==> r[i] == CreateCnameRecord(records[i], hostedZoneId, respond, i)
  {
    CreateAllFrom(records, hostedZoneId, respond, 0)
  }

  /** The number of attempts that sent a request. */
  function CountSent(attempts: seq<Attempt>): (n: nat)
    ensures n <= |attempts|
  {
    if attempts == [] then 0 else (if attempts[0].Sent? then 1 else 0) + CountSent(attempts[1..])
  }

  /** The `changeResourceRecordSets` calls the attempts issue, in the order the attempts were started. */
  function SentCalls(attempts: seq<Attempt>): (r: seq<Call>)
    ensures |r| == CountSent(attempts)
    ensures forall k :: 0 <= k < |r| ==> r[k].ChangeResourceRecordSets?
    ensures (forall i :: 0 <= i < |attempts| ==> attempts[i].Sent?) ==>
      |r| == |attempts| && forall i :: 0 <= i < |attempts| ==> r[i] == ChangeResourceRecordSets(attempts[i].request)
  {
    if attempts == [] then []
    else (if attempts[0].Sent? then [ChangeResourceRecordSets(attempts[0].request)] else []) + SentCalls(attempts[1..])
  }

  /**
    Each sent attempt issues its call, whatever happened to the others: the
    call of sent attempt `i` sits right after the calls of the attempts sent
    before it. With `|SentCalls(attempts)| == CountSent(attempts)`, the calls
    are exactly the sent attempts' requests, in attempt order.
  */
  lemma {:induction false} SentCallAt(attempts: seq<Attempt>, i: int)
    requires 0 <= i < |attempts| && attempts[i].Sent?
    ensures CountSent(attempts[..i]) < |SentCalls(attempts)|
    ensures SentCalls(attempts)[CountSent(attempts[..i])] == ChangeResourceRecordSets(attempts[i].request)
  {
    if i > 0 {
      assert attempts[..i][1..] == attempts[1..][..i - 1];
      SentCallAt(attempts[1..], i - 1);
    }
  }

  /** Every issued call carries the request of an attempt that was sent. */
  lemma {:induction false} SentCallOrigin(attempts: seq<Attempt>, k: int)
    requires 0 <= k < |SentCalls(attempts)|
    ensures exists i :: 0 <= i < |attempts| && attempts[i].Sent? && attempts[i].request == SentCalls(attempts)[k].request
  {
    var head := if attempts[0].Sent? then [ChangeResourceRecordSets(attempts[0].request)] else [];
    if k < |head| {
      assert attempts[0].Sent? && attempts[0].request == SentCalls(attempts)[k].request;
    } else {
      assert SentCalls(attempts)[k] == SentCalls(attempts[1..])[k - |head|];
      SentCallOrigin(attempts[1..], k - |head|);
      var j :| 0 <= j < |attempts[1..]| && attempts[1..][j].Sent?
        && attempts[1..][j].request == SentCalls(attempts[1..])[k - |head|].request;
      assert attempts[j + 1] == attempts[1..][j];
    }
  }

  /** The first failure the DNS service reported, in list order. */
  function FirstChangeFailure(attempts: seq<Attempt>): (r: Option<ServiceError>)
    ensures r.None? <==> forall i :: 0 <= i < |attempts| && attempts[i].Sent? ==> attempts[i].failure.None?
    ensures r.Some? ==> exists i :: 0 <= i < |attempts| && attempts[i].Sent? && attempts[i].failure == r
  {
    if attempts == [] then None
    else if attempts[0].Sent? && attempts[0].failure.Some? then attempts[0].failure
    else
      var r := FirstChangeFailure(attempts[1..]);
      assert r.Some? ==> exists i :: 0 <= i < |attempts| && attempts[i].Sent? && attempts[i].failure == r by {
        if r.Some? {
          var j :| 0 <= j < |attempts[1..]| && attempts[1..][j].Sent? && attempts[1..][j].failure == r;
          assert attempts[j + 1] == attempts[1..][j];
        }
      }
      r
  }

  /**
    How `Promise.all` over the attempts settles: an attempt that failed before
    sending rejects at once; otherwise the first service failure; otherwise
    every record was created.
  */
  function Settle(attempts: seq<Attempt>): (e: Ending)
    ensures e == Completed || e.Threw?
    ensures e == Completed <==> forall i :: 0 <= i < |attempts| ==> attempts[i].Sent? && attempts[i].failure.None?
    ensures (exists i :: 0 <= i < |attempts| && attempts[i].NotSent?) ==> e == Threw(MissingResourceRecord)
    ensures e.Threw? && e.error.ChangeFailed? ==>
      exists i :: 0 <= i < |attempts| && attempts[i].Sent? && attempts[i].failure == Some(e.error.cause)
    ensures ((forall i :: 0 <= i < |attempts| ==> attempts[i].Sent?)
             && (exists i :: 0 <= i < |attempts| && attempts[i].failure.Some?))
            ==> e.Threw? && e.error.ChangeFailed?
  {
    if exists i :: 0 <= i < |attempts| && attempts[i].NotSent? then Threw(MissingResourceRecord)
    else match FirstChangeFailure(attempts)
      case Some(cause) => Threw(ChangeFailed(cause))
      case None => Completed
  }

  /**
    `processEvent`: nothing happens unless the three markers are present; then
    the ARN is extracted (a failed match throws before any call), the tags are
    looked up, a missing zone stops processing, the certificate is described
    and one change request per validation record is sent to the zone.
  */
  function ProcessEvent(message: string,
                        tagsReply: Result<seq<Tag>, ServiceError>,
                        describeReply: Result<seq<DomainValidation>, ServiceError>,
                        respond: DnsAnswers): (o: Outcome)
    ensures o.ending == Ignored <==> !IsCertificateCreation(message)
    ensures o.ending == Ignored ==> o.calls == []
    ensures o.calls != [] ==>
      IsCertificateCreation(message) && Exec(message).Some? && o.calls[0] == ListTagsForCertificate(Exec(message).value.capture)
    ensures IsCertificateCreation(message) && Exec(message).Some? ==>
      o == ProcessCertificate(Exec(message).value.capture, tagsReply, describeReply, respond)
  {
    if !IsCertificateCreation(message) then Outcome([], Ignored)
    else match Exec(message)
      case None => Outcome([], Threw(NoPhysicalResourceId))
      case Some(m) => ProcessCertificate(m.capture, tagsReply, describeReply, respond)
  }

  /** What `processEvent` does once it holds the certificate ARN. */
  function ProcessCertificate(arn: string,
                              tagsReply: Result<seq<Tag>, ServiceError>,
                              describeReply: Result<seq<DomainValidation>, ServiceError>,
                              respond: DnsAnswers): (o: Outcome)
    ensures o.ending != Ignored
    ensures |o.calls| >= 1 && o.calls[0] == ListTagsForCertificate(arn)
    ensures o.ending == NoHostedZone ==> o.calls == [ListTagsForCertificate(arn)]
    ensures |o.calls| >= 2 ==> o.calls[1] == DescribeCertificate(arn)
    ensures |o.calls| >= 2 ==> tagsReply.Success? && HostedZoneIdForTags(tagsReply.value).Some?
    ensures |o.calls| > 2 ==> describeReply.Success?
  {
    var lookup := [ListTagsForCertificate(arn)];
    match HostedZoneIdForCertificate(tagsReply)
    case Failure(e) => Outcome(lookup, Threw(e))
    case Success(None) => Outcome(lookup, NoHostedZone)
    case Success(Some(zone)) =>
      var described := lookup + [DescribeCertificate(arn)];
      match ResourceRecordsForCertificate(describeReply)
      case Failure(e) => Outcome(described, Threw(e))
      case Success(records) =>
        var attempts := CreateAll(records, zone, respond);
        Outcome(described + SentCalls(attempts), Settle(attempts))
  }

  /** When the markers are present but the pattern does not match, the handler throws before calling any service. */
  lemma ExtractionFailureThrows(message: string,
                                tagsReply: Result<seq<Tag>, ServiceError>,
                                describeReply: Result<seq<DomainValidation>, ServiceError>,
                                respond: DnsAnswers)
    requires IsCertificateCreation(message) && Exec(message).None?
    ensures ProcessEvent(message, tagsReply, describeReply, respond) == Outcome([], Threw(NoPhysicalResourceId))
  {
  }

  /** The pattern needs a newline, so a message without one never yields an ARN. */
  lemma NoNewlineNoArn(message: string)
    requires '\n' !in message
    ensures Exec(message).None?
  {
    if Exec(message).Some? {
      CaptureShape(message);
    }
  }

  /**
    A message that passes all three `indexOf` tests but that the pattern does
    not match: `PhysicalResourceId` is on the last line, with no newline after it.
  */
  const UnterminatedArnMessage: string := CreateInProgress + " " + CertificateType + " " + Marker + "arn'"

  lemma UnterminatedArnMessageIsCreation()
    ensures IsCertificateCreation(UnterminatedArnMessage)
  {
    var second := |CreateInProgress| + 1;
    var third := second + |CertificateType| + 1;
    assert OccursAt(UnterminatedArnMessage, CreateInProgress, 0);
    assert OccursAt(UnterminatedArnMessage, CertificateType, second);
    assert OccursAt(UnterminatedArnMessage, PhysicalResourceIdKey, third);
  }

  lemma UnterminatedArnMessageHasNoArn()
    ensures Exec(UnterminatedArnMessage).None?
  {
    assert '\n' !in CreateInProgress && '\n' !in CertificateType && '\n' !in Marker;
    assert '\n' !in UnterminatedArnMessage;
    NoNewlineNoArn(UnterminatedArnMessage);
  }

  /** So the handler can throw on a message it classified as a certificate creation. */
  lemma MarkersWithoutMatchThrow(tagsReply: Result<seq<Tag>, ServiceError>,
                                 describeReply: Result<seq<DomainValidation>, ServiceError>,
                                 respond: DnsAnswers)
    ensures ProcessEvent(UnterminatedArnMessage, tagsReply, describeReply, respond) == Outcome([], Threw(NoPhysicalResourceId))
  {
    UnterminatedArnMessageIsCreation();
    UnterminatedArnMessageHasNoArn();
    ExtractionFailureThrows(UnterminatedArnMessage, tagsReply, describeReply, respond);
  }

  /** A failed tag lookup is rethrown after that single call. */
  lemma TagLookupFailureRethrown(arn: string,
                                 tagsReply: Result<seq<Tag>, ServiceError>,
                                 describeReply: Result<seq<DomainValidation>, ServiceError>,
                                 respond: DnsAnswers)
    requires tagsReply.Failure?
    ensures ProcessCertificate(arn, tagsReply, describeReply, respond)
         == Outcome([ListTagsForCertificate(arn)], Threw(TagLookupFailed(tagsReply.error)))
  {
  }

  /** Without a `HostedZoneId` tag processing stops: no description is fetched and no record is created. */
  lemma NoZoneStopsProcessing(arn: string,
                              tagsReply: Result<seq<Tag>, ServiceError>,
                              describeReply: Result<seq<DomainValidation>, ServiceError>,
                              respond: DnsAnswers)
    requires tagsReply.Success?
    requires forall i :: 0 <= i < |tagsReply.value| ==> !IsZoneTag(tagsReply.value[i])
    ensures ProcessCertificate(arn, tagsReply, describeReply, respond) == Outcome([ListTagsForCertificate(arn)], NoHostedZone)
  {
  }

  /** A failed certificate description is rethrown after the tag lookup and the description call, before any change. */
  lemma DescribeFailureRethrown(arn: string,
                                tagsReply: Result<seq<Tag>, ServiceError>,
                                describeReply: Result<seq<DomainValidation>, ServiceError>,
                                respond: DnsAnswers)
    requires tagsReply.Success? && HostedZoneIdForTags(tagsReply.value).Some?
    requires describeReply.Failure?
    ensures ProcessCertificate(arn, tagsReply, describeReply, respond)
         == Outcome([ListTagsForCertificate(arn), DescribeCertificate(arn)], Threw(DescribeFailed(describeReply.error)))
  {
  }

  /** Past the zone and the description, the calls are the lookup, the description and the fan-out's calls. */
  lemma FanOutStage(arn: string,
                    tagsReply: Result<seq<Tag>, ServiceError>,
                    describeReply: Result<seq<DomainValidation>, ServiceError>,
                    respond: DnsAnswers)
    requires tagsReply.Success? && HostedZoneIdForTags(tagsReply.value).Some?
    requires describeReply.Success?
    ensures var attempts := CreateAll(ResourceRecordsOf(describeReply.value), HostedZoneIdForTags(tagsReply.value).value, respond);
      ProcessCertificate(arn, tagsReply, describeReply, respond)
      == Outcome([ListTagsForCertificate(arn), DescribeCertificate(arn)] + SentCalls(attempts), Settle(attempts))
  {
    var zone := HostedZoneIdForTags(tagsReply.value).value;
    var records := ResourceRecordsOf(describeReply.value);
    var attempts := CreateAll(records, zone, respond);
    assert HostedZoneIdForCertificate(tagsReply) == Success(Some(zone));
    assert ResourceRecordsForCertificate(describeReply) == Success(records);
    calc {
      ProcessCertificate(arn, tagsReply, describeReply, respond);
      Outcome([ListTagsForCertificate(arn)] + [DescribeCertificate(arn)] + SentCalls(attempts), Settle(attempts));
      { assert [ListTagsForCertificate(arn)] + [DescribeCertificate(arn)] == [ListTagsForCertificate(arn), DescribeCertificate(arn)]; }
      Outcome([ListTagsForCertificate(arn), DescribeCertificate(arn)] + SentCalls(attempts), Settle(attempts));
    }
  }

  /** Each call of the fan-out goes to `zone` and creates the record of one of the options. */
  lemma FanOutCallOrigin(options: seq<DomainValidation>, zone: string, respond: DnsAnswers, k: int)
    requires 0 <= k < |SentCalls(CreateAll(ResourceRecordsOf(options), zone, respond))|
    ensures var request := SentCalls(CreateAll(ResourceRecordsOf(options), zone, respond))[k].request;
      request.hostedZoneId == zone
      && CreatedRecord(request).Some?
      && exists i :: 0 <= i < |options| && options[i].resourceRecord == CreatedRecord(request)
  {
    var records := ResourceRecordsOf(options);
    var attempts := CreateAll(records, zone, respond);
    SentCallOrigin(attempts, k);
    var i :| 0 <= i < |attempts| && attempts[i].Sent? && attempts[i].request == SentCalls(attempts)[k].request;
    assert attempts[i] == CreateCnameRecord(records[i], zone, respond, i);
    assert options[i].resourceRecord == records[i];
  }

  /**
    Every change call goes to the zone chosen from the tags and creates the
    record of one of the certificate's validation options.
  */
  lemma ChangeCallsTargetTaggedZone(arn: string,
                                    tagsReply: Result<seq<Tag>, ServiceError>,
                                    describeReply: Result<seq<DomainValidation>, ServiceError>,
                                    respond: DnsAnswers,
                                    k: int)
    requires 0 <= k < |ProcessCertificate(arn, tagsReply, describeReply, respond).calls|
    requires ProcessCertificate(arn, tagsReply, describeReply, respond).calls[k].ChangeResourceRecordSets?
    ensures var request := ProcessCertificate(arn, tagsReply, describeReply, respond).calls[k].request;
      2 <= k && tagsReply.Success? && describeReply.Success?
      && HostedZoneIdForTags(tagsReply.value) == Some(request.hostedZoneId)
      && CreatedRecord(request).Some?
      && exists i :: 0 <= i < |describeReply.value| && describeReply.value[i].resourceRecord == CreatedRecord(request)
  {
    var o := ProcessCertificate(arn, tagsReply, describeReply, respond);
    assert k != 0 by { assert o.calls[0] == ListTagsForCertificate(arn); }
    assert k != 1 by { assert |o.calls| >= 2 ==> o.calls[1] == DescribeCertificate(arn); }
    assert |o.calls| > 2;
    var zone := HostedZoneIdForTags(tagsReply.value).value;
    var options := describeReply.value;
    var calls := SentCalls(CreateAll(ResourceRecordsOf(options), zone, respond));
    FanOutStage(arn, tagsReply, describeReply, respond);
    assert o.calls[k] == calls[k - 2];
    FanOutCallOrigin(options, zone, respond, k - 2);
  }

  /** The number of validation options that carry a resource record. */
  function RecordsAssigned(options: seq<DomainValidation>): (n: nat)
    ensures n <= |options|
  {
    if options == [] then 0
    else (if options[0].resourceRecord.Some? then 1 else 0) + RecordsAssigned(options[1..])
  }

  /** Attempts sent exactly for the options that carry a record are as many as those options. */
  lemma {:induction false} CountSentMatchesRecords(attempts: seq<Attempt>, options: seq<DomainValidation>)
    requires |attempts| == |options|
    requires forall i :: 0 <= i < |options| ==> (attempts[i].Sent? <==> options[i].resourceRecord.Some?)
    ensures CountSent(attempts) == RecordsAssigned(options)
  {
    if options != [] {
      CountSentMatchesRecords(attempts[1..], options[1..]);
    }
  }

  /**
    The fan-out issues one change call per validation option that carries a
    record, in option order, each creating that option's record in the zone;
    options without a record do not stop the calls for the others.
  */
  lemma FanOutCallsPerAssignedRecord(options: seq<DomainValidation>, zone: string, respond: DnsAnswers)
    ensures var calls := SentCalls(CreateAll(ResourceRecordsOf(options), zone, respond));
      |calls| == RecordsAssigned(options)
      && forall i :: 0 <= i < |options| && options[i].resourceRecord.Some? ==>
           RecordsAssigned(options[..i]) < |calls|
           && calls[RecordsAssigned(options[..i])]
           == ChangeResourceRecordSets(CnameChangeRequest(options[i].resourceRecord.value, zone))
  {
    var records := ResourceRecordsOf(options);
    var attempts := CreateAll(records, zone, respond);
    CountSentMatchesRecords(attempts, options);
    forall i | 0 <= i < |options| && options[i].resourceRecord.Some?
      ensures RecordsAssigned(options[..i]) < |SentCalls(attempts)|
           && SentCalls(attempts)[RecordsAssigned(options[..i])]
           == ChangeResourceRecordSets(CnameChangeRequest(options[i].resourceRecord.value, zone))
    {
      assert attempts[i] == CreateCnameRecord(records[i], zone, respond, i);
      SentCallAt(attempts, i);
      CountSentMatchesRecords(attempts[..i], options[..i]);
    }
  }

  /** The same, seen in the whole invocation's calls, after the tag lookup and the description. */
  lemma OneChangePerAssignedRecord(arn: string,
                                   tagsReply: Result<seq<Tag>, ServiceError>,
                                   describeReply: Result<seq<DomainValidation>, ServiceError>,
                                   respond: DnsAnswers)
    requires tagsReply.Success? && HostedZoneIdForTags(tagsReply.value).Some?
    requires describeReply.Success?
    ensures var o := ProcessCertificate(arn, tagsReply, describeReply, respond);
      var zone := HostedZoneIdForTags(tagsReply.value).value;
      var options := describeReply.value;
      |o.calls| == 2 + RecordsAssigned(options)
      && o.calls[0] == ListTagsForCertificate(arn) && o.calls[1] == DescribeCertificate(arn)
      && forall i :: 0 <= i < |options| && options[i].resourceRecord.Some? ==>
           2 + RecordsAssigned(options[..i]) < |o.calls|
           && o.calls[2 + RecordsAssigned(options[..i])]
           == ChangeResourceRecordSets(CnameChangeRequest(options[i].resourceRecord.value, zone))
  {
    var o := ProcessCertificate(arn, tagsReply, describeReply, respond);
    var zone := HostedZoneIdForTags(tagsReply.value).value;
    var options := describeReply.value;
    var calls := SentCalls(CreateAll(ResourceRecordsOf(options), zone, respond));
    FanOutStage(arn, tagsReply, describeReply, respond);
    assert o.calls == [ListTagsForCertificate(arn), DescribeCertificate(arn)] + calls;
    FanOutCallsPerAssignedRecord(options, zone, respond);
    forall i | 0 <= i < |options| && options[i].resourceRecord.Some?
      ensures 2 + RecordsAssigned(options[..i]) < |o.calls|
           && o.calls[2 + RecordsAssigned(options[..i])]
           == ChangeResourceRecordSets(CnameChangeRequest(options[i].resourceRecord.value, zone))
    {
      assert o.calls[2 + RecordsAssigned(options[..i])] == calls[RecordsAssigned(options[..i])];
    }
  }

  /**
    When every validation option has its record, the handler makes exactly one
    change call per option, in option order, each creating that option's
    record in the tagged zone.
  */
  lemma OneChangePerRecord(arn: string,
                           tagsReply: Result<seq<Tag>, ServiceError>,
                           describeReply: Result<seq<DomainValidation>, ServiceError>,
                           respond: DnsAnswers)
    requires tagsReply.Success? && HostedZoneIdForTags(tagsReply.value).Some?
    requires describeReply.Success?
    requires forall i :: 0 <= i < |describeReply.value| ==> describeReply.value[i].resourceRecord.Some?
    ensures var o := ProcessCertificate(arn, tagsReply, describeReply, respond);
      var zone := HostedZoneIdForTags(tagsReply.value).value;
      var options := describeReply.value;
      |o.calls| == 2 + |options|
      && o.calls[0] == ListTagsForCertificate(arn) && o.calls[1] == DescribeCertificate(arn)
      && forall i :: 0 <= i < |options| ==>
           o.calls[2 + i] == ChangeResourceRecordSets(CnameChangeRequest(options[i].resourceRecord.value, zone))
  {
    var o := ProcessCertificate(arn, tagsReply, describeReply, respond);
    var zone := HostedZoneIdForTags(tagsReply.value).value;
    var options := describeReply.value;
    var records := ResourceRecordsOf(options);
    var attempts := CreateAll(records, zone, respond);
    var calls := SentCalls(attempts);
    FanOutStage(arn, tagsReply, describeReply, respond);
    assert o.calls == [ListTagsForCertificate(arn), DescribeCertificate(arn)] + calls;
    forall i | 0 <= i < |options|
      ensures attempts[i] == Sent(CnameChangeRequest(options[i].resourceRecord.value, zone),
                                  respond(i, CnameChangeRequest(options[i].resourceRecord.value, zone)))
    {
      assert attempts[i] == CreateCnameRecord(records[i], zone, respond, i);
    }
    assert forall i :: 0 <= i < |attempts| ==> attempts[i].Sent?;
    assert |calls| == |options|;
    forall i | 0 <= i < |options|
      ensures o.calls[2 + i] == ChangeResourceRecordSets(CnameChangeRequest(options[i].resourceRecord.value, zone))
    {
      assert o.calls[2 + i] == calls[i];
    }
  }

  /** Every step succeeded: the tagged zone exists, every option has its record and every change was accepted. */
  predicate AllStepsSucceed(tagsReply: Result<seq<Tag>, ServiceError>,
                            describeReply: Result<seq<DomainValidation>, ServiceError>,
                            respond: DnsAnswers)
  {
    tagsReply.Success? && HostedZoneIdForTags(tagsReply.value).Some?
    && describeReply.Success?
    && forall i :: 0 <= i < |describeReply.value| ==>
         describeReply.value[i].resourceRecord.Some?
         && respond(i, CnameChangeRequest(describeReply.value[i].resourceRecord.value,
                                          HostedZoneIdForTags(tagsReply.value).value)).None?
  }

  /** The fan-out settles as completed exactly when every option has its record and every change is accepted. */
  lemma FanOutCompletesExactlyWhenAllAccepted(options: seq<DomainValidation>, zone: string, respond: DnsAnswers)
    ensures Settle(CreateAll(ResourceRecordsOf(options), zone, respond)) == Completed
        <==> forall i :: 0 <= i < |options| ==>
               options[i].resourceRecord.Some?
               && respond(i, CnameChangeRequest(options[i].resourceRecord.value, zone)).None?
  {
    var records := ResourceRecordsOf(options);
    var attempts := CreateAll(records, zone, respond);
    assert |attempts| == |options|;
    if Settle(attempts) == Completed {
      forall i | 0 <= i < |options|
        ensures options[i].resourceRecord.Some?
             && respond(i, CnameChangeRequest(options[i].resourceRecord.value, zone)).None?
      {
        assert attempts[i].Sent? && attempts[i].failure.None?;
        assert attempts[i] == CreateCnameRecord(records[i], zone, respond, i);
      }
    } else {
      var i :| 0 <= i < |attempts| && !(attempts[i].Sent? && attempts[i].failure.None?);
      assert attempts[i] == CreateCnameRecord(records[i], zone, respond, i);
      assert !(options[i].resourceRecord.Some?
               && respond(i, CnameChangeRequest(options[i].resourceRecord.value, zone)).None?);
    }
  }

  /** Once it has the ARN, the handler completes exactly when every step succeeds; any failure ends it as thrown or as no zone. */
  lemma CertificateCompletesExactlyWhenAllSucceed(
    arn: string,
    tagsReply: Result<seq<Tag>, ServiceError>,
    describeReply: Result<seq<DomainValidation>, ServiceError>,
    respond: DnsAnswers)
    ensures ProcessCertificate(arn, tagsReply, describeReply, respond).ending == Completed
        <==> AllStepsSucceed(tagsReply, describeReply, respond)
  {
    if tagsReply.Success? && HostedZoneIdForTags(tagsReply.value).Some? && describeReply.Success? {
      FanOutStage(arn, tagsReply, describeReply, respond);
      FanOutCompletesExactlyWhenAllAccepted(describeReply.value, HostedZoneIdForTags(tagsReply.value).value, respond);
    }
  }

  /**
    `processEvent` resolves normally with records created exactly when the
    message is a certificate creation with an ARN and every later step
    succeeds; a failed step is never turned into a normal completion.
  */
  lemma CompletesExactlyWhenAllSucceed(message: string,
                                       tagsReply: Result<seq<Tag>, ServiceError>,
                                       describeReply: Result<seq<DomainValidation>, ServiceError>,
                                       respond: DnsAnswers)
    ensures ProcessEvent(message, tagsReply, describeReply, respond).ending == Completed
        <==> (IsCertificateCreation(message) && Exec(message).Some?
              && AllStepsSucceed(tagsReply, describeReply, respond))
  {
    if IsCertificateCreation(message) && Exec(message).Some? {
      CertificateCompletesExactlyWhenAllSucceed(Exec(message).value.capture, tagsReply, describeReply, respond);
    }
  }

  /**
    Two validation options can carry the same record (a domain and its
    wildcard). The handler then sends the same CREATE request twice; when the
    service accepts one and rejects the other as a duplicate, the invocation
    throws that rejection.
  */
  lemma DuplicateRecordRejected(arn: string,
                                tagsReply: Result<seq<Tag>, ServiceError>,
                                first: string, second: string, record: ResourceRecord,
                                respond: DnsAnswers, rejection: ServiceError)
    requires tagsReply.Success? && HostedZoneIdForTags(tagsReply.value).Some?
    requires var request := CnameChangeRequest(record, HostedZoneIdForTags(tagsReply.value).value);
      respond(0, request).None? && respond(1, request) == Some(rejection)
    ensures var request := CnameChangeRequest(record, HostedZoneIdForTags(tagsReply.value).value);
      var options := [DomainValidation(first, Some(record)), DomainValidation(second, Some(record))];
      ProcessCertificate(arn, tagsReply, Success(options), respond)
      == Outcome([ListTagsForCertificate(arn), DescribeCertificate(arn),
                  ChangeResourceRecordSets(request), ChangeResourceRecordSets(request)],
                 Threw(ChangeFailed(rejection)))
  {
    var zone := HostedZoneIdForTags(tagsReply.value).value;
    var options := [DomainValidation(first, Some(record)), DomainValidation(second, Some(record))];
    var request := CnameChangeRequest(record, zone);
    var attempts := CreateAll(ResourceRecordsOf(options), zone, respond);
    assert attempts[0] == CreateCnameRecord(Some(record), zone, respond, 0);
    assert attempts[1] == CreateCnameRecord(Some(record), zone, respond, 1);
    assert attempts == [Sent(request, None), Sent(request, Some(rejection))];
    assert SentCalls(attempts) == [ChangeResourceRecordSets(request), ChangeResourceRecordSets(request)];
    assert FirstChangeFailure(attempts[1..]) == Some(rejection);
    FanOutStage(arn, tagsReply, Success(options), respond);
  }

  /** A creation notification whose `PhysicalResourceId` line is terminated by a newline. */
  const CreationMessage: string := Marker + "arn:cert:123'\n" + CreateInProgress + "\n" + CertificateType + "\n"

  lemma CreationMessageIsCreation()
    ensures IsCertificateCreation(CreationMessage)
  {
    var second := |Marker| + 14;
    var third := second + |CreateInProgress| + 1;
    assert OccursAt(CreationMessage, PhysicalResourceIdKey, 0);
    assert OccursAt(CreationMessage, CreateInProgress, second);
    assert OccursAt(CreationMessage, CertificateType, third);
  }

  lemma CreationMessageArn()
    ensures Exec(CreationMessage) == Some(RegexMatch(0, "arn:cert:123"))
  {
    var arn := "arn:cert:123";
    assert OccursAt(CreationMessage, Marker, 0);
    assert OccursAt(CreationMessage, arn + "'\n", |Marker|);
    assert MatchesAt(CreationMessage, 0, arn);
    MatchIsUnique(CreationMessage, 0, arn, Exec(CreationMessage).value.capture);
  }

  /** A DNS service that accepts every change call. */
  function AcceptAll(attempt: nat, request: ChangeRequest): Option<ServiceError>
  {
    None
  }

  /** The certificate stage of the creation scenario: tag lookup, description and one accepted CREATE batch. */
  lemma CreationScenarioCertificate()
    ensures var record := ResourceRecord("_v.example.com.", "CNAME", "target.acm-validations.aws.");
      ProcessCertificate("arn:cert:123",
                         Success([Tag(HostedZoneIdKey, "Z1")]),
                         Success([DomainValidation("example.com", Some(record))]),
                         AcceptAll)
      == Outcome([ListTagsForCertificate("arn:cert:123"), DescribeCertificate("arn:cert:123"),
                  ChangeResourceRecordSets(CnameChangeRequest(record, "Z1"))],
                 Completed)
  {
    var arn := "arn:cert:123";
    var record := ResourceRecord("_v.example.com.", "CNAME", "target.acm-validations.aws.");
    var tags := [Tag(HostedZoneIdKey, "Z1")];
    var options := [DomainValidation("example.com", Some(record))];
    var request := CnameChangeRequest(record, "Z1");
    FirstZoneTagWins(tags, 0);
    var attempts := CreateAll(ResourceRecordsOf(options), "Z1", AcceptAll);
    assert attempts[0] == CreateCnameRecord(Some(record), "Z1", AcceptAll, 0);
    assert attempts == [Sent(request, None)];
    assert SentCalls(attempts) == [ChangeResourceRecordSets(request)];
    assert Settle(attempts) == Completed;
    FanOutStage(arn, Success(tags), Success(options), AcceptAll);
  }

  /**
    The creation scenario end to end: one `HostedZoneId` tag, one validation
    record, every call accepted; the handler looks up the tags, describes the
    certificate and sends one CREATE batch for that record to zone Z1.
  */
  lemma CreationScenario()
    ensures var arn := "arn:cert:123";
      var record := ResourceRecord("_v.example.com.", "CNAME", "target.acm-validations.aws.");
      ProcessEvent(CreationMessage,
                   Success([Tag(HostedZoneIdKey, "Z1")]),
                   Success([DomainValidation("example.com", Some(record))]),
                   AcceptAll)
      == Outcome([ListTagsForCertificate(arn), DescribeCertificate(arn),
                  ChangeResourceRecordSets(CnameChangeRequest(record, "Z1"))],
                 Completed)
  {
    CreationMessageIsCreation();
    CreationMessageArn();
    CreationScenarioCertificate();
  }
}
