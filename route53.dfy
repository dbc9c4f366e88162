/** The change request the handler sends to the DNS service for one validation record. */
module Route53 {
  import opened Wrappers
  import opened Acm

  /**
    The service's three change actions. The handler only ever sends `Create`;
    the other two are kept so that `CreatedRecord` has requests to reject.
  */
  datatype Action = Create | Delete | Upsert

  datatype ResourceRecordValue = ResourceRecordValue(value: string)

  datatype ResourceRecordSet = ResourceRecordSet(
    name: string, resourceRecords: seq<ResourceRecordValue>, ttl: nat, rrType: string)

  datatype Change = Change(action: Action, resourceRecordSet: ResourceRecordSet)

  datatype ChangeBatch = ChangeBatch(changes: seq<Change>)

  /** The parameters of `changeResourceRecordSets`. */
  datatype ChangeRequest = ChangeRequest(changeBatch: ChangeBatch, hostedZoneId: string)

  /** The TTL, in seconds, of every validation record the handler creates. */
  const ValidationTtl: nat := 300

  /**
    The record a request creates, when the request is one CREATE change of a
    single-valued record set with the validation TTL; `None` for any other request.
  */
  function CreatedRecord(request: ChangeRequest): Option<ResourceRecord> {
    if |request.changeBatch.changes| != 1 then None
    else
      var change := request.changeBatch.changes[0];
      var recordSet := change.resourceRecordSet;
      if change.action == Create && recordSet.ttl == ValidationTtl && |recordSet.resourceRecords| == 1
      then Some(ResourceRecord(recordSet.name, recordSet.rrType, recordSet.resourceRecords[0].value))
      else None
  }

  /**
    The parameters `createCNAMERecord` builds: a batch of exactly one CREATE
    change, TTL 300, `Name` and `Type` copied from the record, one value equal
    to the record's `Value`, addressed to the given zone.
  */
  function CnameChangeRequest(record: ResourceRecord, hostedZoneId: string): (request: ChangeRequest)
    ensures CreatedRecord(request) == Some(record)
    ensures request.hostedZoneId == hostedZoneId
  {
    ChangeRequest(
      ChangeBatch([
        Change(Create, ResourceRecordSet(record.name, [ResourceRecordValue(record.value)], ValidationTtl, record.rrType))
      ]),
      hostedZoneId)
  }

  /** Conversely, every request that creates a single validation record is the one CnameChangeRequest builds for it. */
  lemma CreatedRecordInverse(request: ChangeRequest)
    requires CreatedRecord(request).Some?
    ensures request == CnameChangeRequest(CreatedRecord(request).value, request.hostedZoneId)
  {
    var change := request.changeBatch.changes[0];
    var recordSet := change.resourceRecordSet;
    assert recordSet.resourceRecords == [ResourceRecordValue(recordSet.resourceRecords[0].value)];
    assert request.changeBatch.changes == [change];
  }
}
