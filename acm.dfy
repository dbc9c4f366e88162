/**
  What the handler reads from the certificate service: the certificate's tags
  (`getHostedZoneIdForCertificate`) and the DNS records of its domain
  validation options (`getResourceRecordsForCertificate`). The service calls
  themselves are replaced by their replies, which are parameters here.
*/
module Acm {
  import opened Wrappers

  /** One entry of `listTagsForCertificate`'s `Tags`. */
  datatype Tag = Tag(key: string, value: string)

  /** A validation record as the certificate service reports it (`Name`, `Type`, `Value`). */
  datatype ResourceRecord = ResourceRecord(name: string, rrType: string, value: string)

  /**
    One entry of `describeCertificate`'s `DomainValidationOptions`; its
    `ResourceRecord` is absent (`undefined`) until the service has assigned it.
  */
  datatype DomainValidation = DomainValidation(domainName: string, resourceRecord: Option<ResourceRecord>)

  /** The tag key that names the hosted zone a certificate's records go to. */
  const HostedZoneIdKey: string := "HostedZoneId"

  predicate IsZoneTag(tag: Tag) {
    tag.key == HostedZoneIdKey
  }

  /** `tags.filter(tag => tag.Key === 'HostedZoneId')`. */
  function ZoneTags(tags: seq<Tag>): (r: seq<Tag>)
    ensures |r| <= |tags|
    ensures forall k :: 0 <= k < |r| ==> IsZoneTag(r[k]) && r[k] in tags
    ensures forall i :: 0 <= i < |tags| && IsZoneTag(tags[i]) ==> tags[i] in r
  {
    if tags == [] then []
    else (if IsZoneTag(tags[0]) then [tags[0]] else []) + ZoneTags(tags[1..])
  }

  /** `tags[i]` is the first tag, in list order, whose key is `HostedZoneId`. */
  predicate IsFirstZoneTag(tags: seq<Tag>, i: int) {
    0 <= i < |tags| && IsZoneTag(tags[i]) && forall j :: 0 <= j < i ==> !IsZoneTag(tags[j])
  }

  /**
    The hosted zone chosen from a certificate's tags: the value of the first
    filtered tag, or `None` (JavaScript's `null`) when no tag has the key.
    The value always comes from a tag whose key is `HostedZoneId`.
  */
  function HostedZoneIdForTags(tags: seq<Tag>): (r: Option<string>)
    ensures r.None? <==> forall i :: 0 <= i < |tags| ==> !IsZoneTag(tags[i])
    ensures r.Some? ==> exists i :: 0 <= i < |tags| && IsZoneTag(tags[i]) && tags[i].value == r.value
  {
    var zoneTags := ZoneTags(tags);
    if |zoneTags| == 0 then None else Some(zoneTags[0].value)
  }

  /** The filter keeps list order, so its head is the first tag with the key. */
  lemma {:induction false} ZoneTagsHead(tags: seq<Tag>, i: int)
    requires IsFirstZoneTag(tags, i)
    ensures |ZoneTags(tags)| > 0 && ZoneTags(tags)[0] == tags[i]
  {
    if i > 0 {
      assert IsFirstZoneTag(tags[1..], i - 1);
      ZoneTagsHead(tags[1..], i - 1);
    }
  }

  /** When several tags have the key, the first one in list order wins. */
  lemma FirstZoneTagWins(tags: seq<Tag>, i: int)
    requires IsFirstZoneTag(tags, i)
    ensures HostedZoneIdForTags(tags) == Some(tags[i].value)
  {
    ZoneTagsHead(tags, i);
  }

  /**
    `DomainValidationOptions.map(item => item.ResourceRecord)`: same length,
    same order, element `i` is option `i`'s record, absent ones included.
  */
  function ResourceRecordsOf(options: seq<DomainValidation>): (r: seq<Option<ResourceRecord>>)
    ensures |r| == |options|
    ensures forall i :: 0 <= i < |options| ==> r[i] == options[i].resourceRecord
  {
    if options == [] then [] else [options[0].resourceRecord] + ResourceRecordsOf(options[1..])
  }
}
