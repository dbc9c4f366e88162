# ACM DNS validation record creation, modelled in Dafny

This project models the certificate-creation path of the ACM DNS record
manager's notification handler (`src/index.js`). A CloudFormation
notification arrives as free text. The handler acts only when the text says
that an `AWS::CertificateManager::Certificate` resource is in
`CREATE_IN_PROGRESS`. It then:

- pulls the certificate ARN out of the `PhysicalResourceId='…'` line;
- reads the certificate's tags to find the Route 53 hosted zone (the first
  tag whose key is `HostedZoneId`);
- reads the certificate's domain validation options;
- sends one `changeResourceRecordSets` request per validation record. Each
  request holds a single CREATE change with TTL 300.

The model is made of pure functions, like the source's decision logic. The
two AWS services do not appear as calls. Their replies are parameters: the
tag-lookup reply, the describe-certificate reply, and a function that gives
the DNS service's answer to each change call. `ProcessEvent` returns an
`Outcome`: the service calls the handler would issue, in issue order, and how
the invocation ends (`Ignored`, `NoHostedZone`, `Completed`, or `Threw` with
the error).

Modules:

- `Wrappers`: `Option` (for JavaScript's `null`/`undefined`) and `Result`
  (for rejected promises).
- `Text`: `String.prototype.indexOf`.
- `ArnExtraction`: the regular expression `/PhysicalResourceId='(.+)'\n/`.
  `MatchesAt` is the pattern's declarative meaning. `Exec` is the leftmost
  match, computed by scanning, and its contract ties it to `MatchesAt`.
  JavaScript's `.` matches any character except `\n`, `\r`, U+2028 and
  U+2029. So the greedy capture runs to the end of its line, and the line
  must end in `'` followed by `\n`. At any one position there is at most one
  capture (`MatchIsUnique`).
- `Acm`: tags and the choice of hosted zone, and validation options and
  their resource records.
- `Route53`: the change request `createCNAMERecord` builds (`CnameChangeRequest`).
  `CreatedRecord` is its inverse: it reads back the record that a
  single-change CREATE request with TTL 300 creates.
- `Processing`: `getHostedZoneIdForCertificate`,
  `getResourceRecordsForCertificate`, `createCNAMERecord` and `processEvent`.
  Lemmas state when calls happen, what they carry, and that failures are
  rethrown.

What `src/index.js` does on this path:

- It classifies the message with three substring tests. The third test
  looks for `PhysicalResourceId=` without the quote.
- It waits once, for 45 seconds, before describing the certificate.
- It maps every validation option to its record, including absent ones. An
  absent record makes `createCNAMERecord` throw a TypeError before it calls
  the service (`MissingResourceRecord`). The change requests for the other
  records are still sent (`FanOutCallsPerAssignedRecord`).
- It sends one change batch per record. The calls run concurrently, so the
  DNS service's answer is given per call (`DnsAnswers`, indexed by the
  call's position). Two options that carry the same record (a domain and its
  wildcard) produce two identical CREATE requests. When the service rejects
  the second, the invocation throws (`DuplicateRecordRejected`).
- A failed regular-expression match makes `result[1]` throw
  (`NoPhysicalResourceId`). This happens before any service call.
  `MarkersWithoutMatchThrow` exhibits such a message.

## Model

| member | source | states |
|---|---|---|
| `Text.IndexOf` | src/index.js:17 | `indexOf` is -1 exactly when the text does not occur; otherwise it is an occurrence with none before it |
| `Processing.IsCertificateCreation` | src/index.js:17 | the handler acts exactly when the message contains `ResourceStatus='CREATE_IN_PROGRESS'`, `ResourceType='AWS::CertificateManager::Certificate'` and `PhysicalResourceId=`, each somewhere in the text |
| `ArnExtraction.Exec` | src/index.js:18-19 | `exec` returns null exactly when the pattern matches nowhere; otherwise a match of the pattern at the returned index with no match at any earlier index |
| `ArnExtraction.CaptureAtMatches` | src/index.js:18 | at an occurrence of `PhysicalResourceId='`, the greedy capture is found exactly when the pattern matches there, and it is that match's capture |
| `ArnExtraction.CaptureAtSound` | src/index.js:18 | a capture found by the scan at an occurrence of `PhysicalResourceId='` is a match of the pattern there |
| `ArnExtraction.CaptureAtComplete` | src/index.js:18 | any match of the pattern at an occurrence of `PhysicalResourceId='` is the capture the scan finds |
| `ArnExtraction.MatchIsUnique` | src/index.js:18 | at a given index the pattern has at most one capture |
| `ArnExtraction.CaptureShape` | src/index.js:18-20 | the extracted ARN is non-empty, has no newline, sits right after `PhysicalResourceId='`, and is followed in the message by `'` and a newline |
| `Acm.ZoneTags` | src/index.js:76-78 | the filter keeps only tags whose key is `HostedZoneId`, all of them, each taken from the input |
| `Acm.HostedZoneIdForTags` | src/index.js:76-83 | the zone is absent exactly when no tag has key `HostedZoneId`; a returned zone is the value of a tag with that key, never of another tag |
| `Acm.ZoneTagsHead` | src/index.js:76-78 | the filter keeps list order: its first element is the first tag with key `HostedZoneId` |
| `Acm.FirstZoneTagWins` | src/index.js:76-83 | when several tags have key `HostedZoneId`, the zone is the value of the first one in list order |
| `Acm.ResourceRecordsOf` | src/index.js:98-100 | the record list has the options' length and order; element i is option i's `ResourceRecord`, absent ones included (no filtering) |
| `Route53.CnameChangeRequest` | src/index.js:39-58 | the request reads back as exactly the given record (one CREATE change, TTL 300, one value, Name/Type/Value copied) and is addressed to the given zone |
| `Route53.CreatedRecordInverse` | src/index.js:39-58 | every request that creates a single record with TTL 300 is the one `createCNAMERecord` builds for that record, so building and reading back are inverse |
| `Processing.HostedZoneIdForCertificate` | src/index.js:68-88 | a failed tag lookup is rethrown as `TagLookupFailed` with its cause; otherwise no zone exactly when no tag has key `HostedZoneId`, and the zone is the value of the first tag with that key |
| `Processing.ResourceRecordsForCertificate` | src/index.js:90-105 | a failed description is rethrown as `DescribeFailed` with its cause; otherwise one record entry per validation option, in order |
| `Processing.CreateCnameRecord` | src/index.js:38-66 | an absent record fails with `MissingResourceRecord` and sends nothing; otherwise the request sent creates that record in the given zone, and the service's answer to that call is kept, not swallowed |
| `Processing.CreateAllFrom` | src/index.js:32-34 | attempt i of the fan-out is `createCNAMERecord` on record i, answered as call `first + i` |
| `Processing.CreateAll` | src/index.js:32-34 | one independent `createCNAMERecord` attempt per record, in record order, all with the same zone, attempt i answered as call i |
| `Processing.SentCalls` | src/index.js:32-34 | only change calls are issued, exactly as many as there are sent attempts; when every attempt is sent, exactly one call per attempt, in order |
| `Processing.SentCallAt` | src/index.js:32-34 | each sent attempt issues its call whatever happened to the others: the call of sent attempt i comes right after the calls of the attempts sent before it |
| `Processing.SentCallOrigin` | src/index.js:32-34 | every issued change call carries the request of a sent attempt |
| `Processing.FirstChangeFailure` | src/index.js:32-34 | no failure is reported exactly when every sent request was accepted; a reported failure is the answer to a sent request |
| `Processing.Settle` | src/index.js:32-34 | the fan-out completes exactly when every attempt was sent and accepted; an unsent attempt makes it throw `MissingResourceRecord`; when all were sent and one was rejected it throws `ChangeFailed` with the cause of a rejected request |
| `Processing.ProcessEvent` | src/index.js:14-36 | ignored exactly when one of the three markers is missing, and then no call is made; any call sequence starts with the tag lookup for the extracted ARN |
| `Processing.ProcessCertificate` | src/index.js:22-34 | the tag lookup for the ARN comes first; a missing zone stops after that single call; the second call, if any, describes the same ARN |
| `Processing.FanOutStage` | src/index.js:22-34 | once the zone is found and the description succeeds, the calls are the lookup, the description and the fan-out's calls, and the ending is how the fan-out settles |
| `Processing.ExtractionFailureThrows` | src/index.js:17-20 | markers present but no match: the handler throws `NoPhysicalResourceId` and makes no call |
| `Processing.NoNewlineNoArn` | src/index.js:18-19 | a message without a newline never yields an ARN |
| `Processing.UnterminatedArnMessageIsCreation` | src/index.js:17 | a message whose `PhysicalResourceId` is on its last line passes all three marker tests |
| `Processing.UnterminatedArnMessageHasNoArn` | src/index.js:18-19 | the pattern does not match that message |
| `Processing.MarkersWithoutMatchThrow` | src/index.js:17-20 | on that message the handler throws before any service call |
| `Processing.TagLookupFailureRethrown` | src/index.js:84-87 | a failed tag lookup ends the invocation with `TagLookupFailed` and its cause, after that single call |
| `Processing.NoZoneStopsProcessing` | src/index.js:22-25 | with no `HostedZoneId` tag, processing stops after the tag lookup: no description is fetched and no record is created |
| `Processing.DescribeFailureRethrown` | src/index.js:101-104 | a failed description ends the invocation with `DescribeFailed` and its cause, before any change call |
| `Processing.ChangeCallsTargetTaggedZone` | src/index.js:30-34 | every change call comes after the lookup and the description, goes to the zone chosen from the tags, and creates the record of one of the certificate's validation options |
| `Processing.FanOutCallOrigin` | src/index.js:30-34 | every call of the fan-out goes to the given zone and creates the record of one of the validation options |
| `Processing.FanOutCallsPerAssignedRecord` | src/index.js:30-34 | the fan-out issues exactly one change call per option that carries a record, in option order, each creating that record in the zone; absent records do not stop the others |
| `Processing.OneChangePerAssignedRecord` | src/index.js:30-34 | in the whole invocation: after the lookup and the description, exactly one change call per option that carries a record, in option order, to the tagged zone |
| `Processing.OneChangePerRecord` | src/index.js:30-34 | with every record present: exactly one change call per validation option, in option order, each creating that option's record in the tagged zone |
| `Processing.FanOutCompletesExactlyWhenAllAccepted` | src/index.js:30-34 | the fan-out completes exactly when every option carries its record and the service accepts every change call |
| `Processing.CertificateCompletesExactlyWhenAllSucceed` | src/index.js:22-34 | once the ARN is known, the invocation completes exactly when the zone is found, the description succeeds, every record is present and every change is accepted |
| `Processing.CompletesExactlyWhenAllSucceed` | src/index.js:14-36 | `processEvent` completes normally with records created exactly when the message is a certificate creation with an ARN and every later step succeeds; no failure is converted into a normal completion |
| `Processing.DuplicateRecordRejected` | src/index.js:30-34 | two options with the same record produce two identical CREATE requests; when the service rejects the second, the invocation throws that rejection |
| `Processing.CreationMessageIsCreation` | src/index.js:17 | a notification with the three markers on separate lines passes the marker tests |
| `Processing.CreationMessageArn` | src/index.js:18-20 | the ARN extracted from that notification is `arn:cert:123` |
| `Processing.CreationScenarioCertificate` | src/index.js:22-34 | given one `HostedZoneId` tag, one validation record and a service that accepts every call: tag lookup, description, one CREATE batch to zone Z1, then completion |
| `Processing.CreationScenario` | src/index.js:14-36 | end to end: given one `HostedZoneId` tag and one validation record, the handler looks up the tags, describes the certificate and sends one CREATE batch for that record to zone Z1 |

## Left out

- AWS SDK client construction and the real `listTagsForCertificate`, `describeCertificate` and `changeResourceRecordSets` calls are not modelled. They are foreign service calls. Their replies are parameters, and the calls appear as entries in `Outcome.calls`.
- `exports.handler` is not modelled. It runs `processEvent` concurrently over the notification records with `Promise.all`. Each record's processing is independent, and `ProcessEvent` models one record.
- The `sleep(45000)` before the certificate is described is not modelled. It is wall-clock timing and has no effect on the outcome.
- The `console.log` diagnostics in the three catch blocks are not modelled. They are output only.
- Missing `Tags` or `Certificate` fields in a service reply are not modelled separately. Each would throw inside the same try block as a failed call, so a failed reply (`Failure`) stands for them.
- Acm.HostedZoneIdForTags: a tag's `Value` is modelled as always present. In the source, a `HostedZoneId` tag whose `Value` is `null` makes the handler stop as if no tag existed, because `hostedZoneId === null` holds. A tag with no `Value` gives `undefined`, which is not `null`, so the handler goes on to describe the certificate and sends change requests with an undefined `HostedZoneId`. The model covers neither case.
- Processing.Settle: when several change requests fail, the source rejects with whichever failure arrives first in time. The model reports the first in list order. An absent record always wins, because it rejects before any request is answered.
- Processing.CreateAll: the source starts the attempts concurrently. The model keeps the order in which they are started, not the order in which the service answers them.
- Processing.DnsAnswers: the DNS service's answers are inputs, one per change call. The model does not derive from Route 53's own rules which requests it rejects, for example a CREATE of a record set that already exists.
