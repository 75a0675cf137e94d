# Sync buckets state machine — a Dafny model

This project models the decision logic of the AWS Step Functions state machine that keeps one S3
bucket in step with another, together with the pure parts of the script that deploys it.

- **copy_keys** (`CopyKeys`). Ten worker threads take keys from a queue. For each key they compare
  the head of the source object with the head of the destination object. Then they:
  - write a website redirect when the source object is a redirect and the destination's differs;
  - copy the object when the destination lacks it, or when the ETag or the metadata differ;
  - skip the key otherwise.
  A failing head request ends the worker that sent it.
- **delete_orphaned_keys** (`DeleteOrphanedKeys`). The same pool deletes every destination key whose
  source head request answers 404.
- **list_bucket** (`ListBucket`). Lists a page of keys with its continuation token. While the result is
  too large for a state machine payload, the page is asked for again at half the number of keys the
  oversized page held. The handler raises once that number reaches zero.
- **get_bucket_location** (`GetBucketLocation`). Picks the bucket name out of the event and maps its
  location constraint to a region name.
- **combine_dicts** (`CombineDicts`). Merges a list of dictionaries, later entries winning.
- **fabfile** (`Fabfile`). The deployment script's pieces that compute rather than call AWS:
  - logical names (`to_camel_case`);
  - merging templates;
  - reading the YAML front matter of a Lambda function file;
  - adding the default execution policy;
  - rewriting the `"Resource":` lines of a state machine definition into ARN references;
  - choosing the change set type and whether a stack may be deleted.

Shared modules:
- `S3` holds the object heads, the 404 convention, the request log and the destination `Bucket`,
  which is a class whose object map and request log the writes update.
- `Json` models event values. An object is an ordered list of fields, and `Json.Dict` gives it
  Python's dictionary meaning.
- `Text` holds Python's string operations on ASCII text.
- `Wrappers` holds `Option`, `Result` and `Get`, which reads a map as Python's `dict.get` does.

The worker pools are modelled as one sequential pass over the queue. A raise inside a worker's
`run` ends that thread only: `join` does not re-raise, so `sync_keys` and `delete_obsolete_keys`
return normally. The model records each failure with its key and code, and counts down the
workers. Once all ten workers have ended, the rest of the queue is left unprocessed.

Each imperative operation is a method. Most are proved equal to a specification function over
values (`CopyKeys.Run`, `DeleteOrphanedKeys.Run`, `ListBucket.Listing`, `Fabfile.FrontMatter`,
`Fabfile.RewriteLine`, `Fabfile.FixedPolicies`), and the properties of the system are then proved
as lemmas about those functions. Two are specified differently. `CombineDicts.Handler` is proved to
satisfy the merge predicate `CombineDicts.MergedFrom`, which `CombineDicts.MergeIsUnique` shows has
only one solution. `Fabfile.Template.Combine` states its new sections directly in its contract.

## Model

| member | source | states |
|---|---|---|
| Text.Lower | lambda_functions/get_bucket_location.py:54 | `lower()` keeps the length and lowers each character |
| Text.Contains | lambda_functions/get_bucket_location.py:54 | substring test: true exactly when the pattern occurs at some index |
| Text.LStrip | fabfile.py:429 | `lstrip`: the result is a suffix, every dropped character is strippable, and the first kept one is not |
| Text.RStrip | fabfile.py:431 | `rstrip`: the result is a prefix, every dropped character is strippable, and the last kept one is not |
| Text.Strip | fabfile.py:431 | `strip(chars)`: `rstrip` after `lstrip` with the same characters |
| Text.DropPrefix | fabfile.py:268 | the slice `line[2:]`, empty when the line is shorter |
| Json.Dict | lambda_functions/combine_dicts.py:31-32 | a field list read as a dictionary: the keys are the field names, and each name maps to the value of its last occurrence |
| Json.NamesCons | lambda_functions/combine_dicts.py:31-32 | the names of a field list are its first name and the names of the rest |
| Json.LastWithNameCons | lambda_functions/combine_dicts.py:31-32 | the last field with its name is the first field, or the last with its name among the rest |
| S3.RedirectObject | lambda_functions/copy_keys.py:93-97 | the object `put_object` leaves: only a website redirect to the target |
| S3.HeadObject | lambda_functions/copy_keys.py:120-124 | a head request finds the object exactly when it exists and the request does not fail; it answers 404 exactly when the object is absent and the request does not fail, and otherwise answers the failure's code |
| S3.Bucket.Head | lambda_functions/copy_keys.py:122 | the head request on the destination bucket: `HeadObject` over the bucket's current objects |
| S3.Bucket.PutObject | lambda_functions/copy_keys.py:88-97 | the key becomes a redirect to the target, and a put request is logged |
| S3.Bucket.CopyObject | lambda_functions/copy_keys.py:99-111 | the key becomes the source object, and a copy request is logged |
| S3.Bucket.DeleteObject | lambda_functions/delete_orphaned_keys.py:80 | the key is removed, and a delete request is logged |
| CopyKeys.Metadata | lambda_functions/copy_keys.py:69-75 | the definition `CollectMetadata` is proved against: the response restricted to the seven metadata fields it has |
| CopyKeys.CollectMetadata | lambda_functions/copy_keys.py:69-75 | the loop collects exactly the metadata fields the response has |
| CopyKeys.MetadataDependsOnlyOnMetadataFields | lambda_functions/copy_keys.py:47-55 | two responses have equal metadata exactly when they agree on each of the seven metadata fields |
| CopyKeys.MetadataIgnoresOtherFields | lambda_functions/copy_keys.py:47-55 | changing or removing a field outside the seven leaves the metadata unchanged |
| CopyKeys.Decide | lambda_functions/copy_keys.py:120-156 | raises exactly on a failed source head or a non-404 destination failure. A redirect is written with the source's own target. A source redirect is never copied. A missing destination is always written. For an existing destination, a redirect is rewritten exactly when the targets differ, and an object is copied exactly when the ETag or the metadata differ |
| CopyKeys.DecisionFor | lambda_functions/copy_keys.py:120-122 | the decision for a key from the source's head and the current destination's head; a copy is only decided for a key the source has, and the worker raises exactly when a head request fails with a code other than 404 or the source lacks the key, whatever the destination holds |
| CopyKeys.Effect | lambda_functions/copy_keys.py:88-111 | the definition of a decision's effect on the destination: a put makes the key a redirect, a copy gives it the source object, and nothing else changes |
| CopyKeys.Emitted | lambda_functions/copy_keys.py:93-97 | the definition of the write request a decision sends: a put, a copy or nothing |
| CopyKeys.Step | lambda_functions/copy_keys.py:113-156 | the definition `SynchronizeKey` is proved against: one key's decision applied to the pool state, a raise recording a failure and ending a worker |
| CopyKeys.Run | lambda_functions/copy_keys.py:161-185 | the definition `SyncKeys` and the run lemmas are proved against: the steps over the queue in order until it is empty or no worker is left, the rest of the queue then unprocessed |
| CopyKeys.SynchronizeKey | lambda_functions/copy_keys.py:113-156 | one iteration of a worker: the destination changes as the decision for the key says, and a raise returns its code |
| CopyKeys.SyncKeys | lambda_functions/copy_keys.py:161-185 | the pool's pass over the queue ends in the state, failures and unprocessed keys of `Run` from ten workers |
| CopyKeys.RunExtendsLog | lambda_functions/copy_keys.py:161-185 | a run only appends to the request log |
| CopyKeys.NewRequestsUnfold | lambda_functions/copy_keys.py:113-156 | the requests of a run are those of its first key followed by those of the rest |
| CopyKeys.EmittedKeys | lambda_functions/copy_keys.py:133-154 | the requests for one key are none or a single request for that key |
| CopyKeys.RunWritesAtMostOncePerKey | lambda_functions/copy_keys.py:113-156 | every written key was queued, and each queued occurrence causes at most one write |
| CopyKeys.RunRespectsRedirects | lambda_functions/copy_keys.py:125-139 | every write agrees with the source: a put carries the source's redirect target, and a copy is of a key that is not a redirect |
| CopyKeys.RunLeavesUnlistedKeys | lambda_functions/copy_keys.py:173-175 | keys that are not queued keep their destination object, or stay absent |
| CopyKeys.StepSettles | lambda_functions/copy_keys.py:120-156 | once a key has been processed, deciding it again skips it or raises |
| CopyKeys.StepKeepsOtherKeys | lambda_functions/copy_keys.py:120-156 | processing one key leaves every other key's object, and its settledness, unchanged |
| CopyKeys.Processed | lambda_functions/copy_keys.py:113-120 | the number of queued keys a pool dequeues: at most the queue's length, and at least one when there is a worker and a key |
| CopyKeys.RunUnprocessed | lambda_functions/copy_keys.py:161-185 | the keys a run leaves unprocessed are exactly the queue after the first `Processed` keys |
| CopyKeys.RunSettles | lambda_functions/copy_keys.py:161-185 | every key a run dequeues, and every key settled before, is settled afterwards |
| CopyKeys.RunOverSettledKeys | lambda_functions/copy_keys.py:133-154 | a run whose dequeued keys are all settled writes nothing and logs nothing |
| CopyKeys.SecondRunWritesNothing | lambda_functions/copy_keys.py:161-185 | idempotence: a second run over the same keys, with the same source and failing requests, sends no request and changes no object, whether or not the first run lost all its workers |
| CopyKeys.RunWithoutFaultsSynchronizesAll | lambda_functions/copy_keys.py:113-156 | without failing requests, every queued key ends up in the destination, a fresh comparison with the source skips it, and no failure is recorded |
| DeleteOrphanedKeys.Decide | lambda_functions/delete_orphaned_keys.py:74-82 | keep exactly when the source has the key, delete exactly on 404, and raise the code on any other failure |
| DeleteOrphanedKeys.Step | lambda_functions/delete_orphaned_keys.py:67-82 | the definition `DeleteIfOrphaned` is proved against: keep, delete with a logged request, or record a failure and end a worker |
| DeleteOrphanedKeys.Run | lambda_functions/delete_orphaned_keys.py:87-108 | the definition `DeleteObsoleteKeys` and the run lemmas are proved against: the steps over the queue in order until it is empty or no worker is left |
| DeleteOrphanedKeys.DeleteIfOrphaned | lambda_functions/delete_orphaned_keys.py:67-82 | one iteration of a worker: the destination loses the key exactly on a delete decision |
| DeleteOrphanedKeys.DeleteObsoleteKeys | lambda_functions/delete_orphaned_keys.py:87-108 | the pool's pass over the queue ends in the state, failures and unprocessed keys of `Run` from ten workers |
| DeleteOrphanedKeys.Deleted | lambda_functions/delete_orphaned_keys.py:74-82 | every deleted key was queued and is absent from the source without a failing request |
| DeleteOrphanedKeys.RunDeletes | lambda_functions/delete_orphaned_keys.py:87-108 | a run removes exactly the deleted keys and changes no other destination entry |
| DeleteOrphanedKeys.DeletedAreTheOrphans | lambda_functions/delete_orphaned_keys.py:74-82 | without failing requests, the deleted keys are exactly the queued keys the source lacks |
| DeleteOrphanedKeys.RunRequestsDeleteOrphans | lambda_functions/delete_orphaned_keys.py:80 | a run only appends delete requests, each for a queued key the source lacks |
| DeleteOrphanedKeys.SecondRunChangesNothing | lambda_functions/delete_orphaned_keys.py:87-108 | idempotence: a second run over the same keys leaves the destination as the first left it |
| ListBucket.Contents | lambda_functions/list_bucket.py:85 | `response.get('Contents', [])`: the listed objects, or none when the field is absent |
| ListBucket.ResultOf | lambda_functions/list_bucket.py:85-89 | the result holds the listed keys in order and the next token, or "" when there is none |
| ListBucket.FirstRequest | lambda_functions/list_bucket.py:57-80 | the bucket is read through the `listBucket` field, and a missing field fails. The page size defaults to 1024 and the prefix to "". A token is sent exactly when one is given and it is not empty |
| ListBucket.FitsAt | lambda_functions/list_bucket.py:90-91 | the JSON length of the page listed for a request is within the 28800 budget |
| ListBucket.Listing | lambda_functions/list_bucket.py:76-103 | a returned result fits the payload limit, and the only failure is the downsizing error |
| ListBucket.ListingIsAPage | lambda_functions/list_bucket.py:76-103 | a result is the page listed at some page size no larger than the requested one; a failure comes only after a page that does not fit and has fewer than two keys |
| ListBucket.ListingSucceeds | lambda_functions/list_bucket.py:91-101 | when every oversized page still holds two or more keys, the listing succeeds |
| ListBucket.ListingRetries | lambda_functions/list_bucket.py:91-102 | an oversized page is asked for again at half its key count, a smaller page size than before, and a half of zero fails |
| ListBucket.RetryOf | lambda_functions/list_bucket.py:91-102 | a request is the retry of another when the other's page did not fit and it asks for half the keys that page held |
| ListBucket.RetryLog | lambda_functions/list_bucket.py:76-103 | the requests start with the first one, ask for the same listing, and each retry is the `RetryOf` the one before with a smaller page size |
| ListBucket.RetryLogAppend | lambda_functions/list_bucket.py:83-102 | sending the next request of the loop keeps the log a retry log |
| ListBucket.ListWithRetries | lambda_functions/list_bucket.py:76-103 | the loop returns the `Listing` result. Its requests start with the first request and ask for the same listing. Each retry follows a page that did not fit and asks for half the keys that page held, fewer than the request before. A success is the result of the last request |
| ListBucket.Handler | lambda_functions/list_bucket.py:54-103 | a missing bucket field fails before any request. Otherwise the handler lists from its first request; a success is the result of its last request and fits the limit |
| GetBucketLocation.NamesBucket | lambda_functions/get_bucket_location.py:54 | `'bucket' in i.lower()`: the lowered field name contains "bucket" |
| GetBucketLocation.FirstBucketField | lambda_functions/get_bucket_location.py:54 | the first field whose name contains "bucket" in any case, or none when no field's name does |
| GetBucketLocation.BucketField | lambda_functions/get_bucket_location.py:54-58 | the first field naming a bucket, or the first field when none does |
| GetBucketLocation.SelectBucket | lambda_functions/get_bucket_location.py:49-60 | a string event is the name itself. An object event gives the event dictionary's value for the chosen name, so a repeated name gives its last value. The name must be a non-empty string, an empty object has no field to fall back on, and any other event fails |
| GetBucketLocation.SelectBucketRepeatedField | lambda_functions/get_bucket_location.py:54-56 | an event naming `bucket` twice gives the value of the second occurrence |
| GetBucketLocation.Region | lambda_functions/get_bucket_location.py:67-73 | no constraint means us-east-1, the legacy EU means eu-west-1, and any other constraint is the region itself |
| GetBucketLocation.RegionIsNormal | lambda_functions/get_bucket_location.py:67-73 | the result is never the legacy name, and mapping a region again keeps it |
| GetBucketLocation.Handler | lambda_functions/get_bucket_location.py:48-73 | succeeds exactly when a bucket name is selected, and returns the region of that bucket's constraint |
| CombineDicts.MergedFrom | lambda_functions/combine_dicts.py:30-34 | the definition `Handler` is proved against: exactly the keys of the dictionaries, each with its value in the last dictionary that has it |
| CombineDicts.MergeStep | lambda_functions/combine_dicts.py:31-32 | one `update` keeps the merge invariant: each key holds the value of the last dictionary that has it |
| CombineDicts.Dicts | lambda_functions/combine_dicts.py:31 | the list items read as dictionaries, one for one |
| CombineDicts.MergeItem | lambda_functions/combine_dicts.py:31-32 | updating the merge of the first items with the next item gives the merge of one more item |
| CombineDicts.Handler | lambda_functions/combine_dicts.py:27-34 | a non-list event fails the assertion. A list merges exactly when every item is a dictionary, and the merged result gives each key the value from the last dictionary that has it |
| CombineDicts.MergeIsUnique | lambda_functions/combine_dicts.py:30-34 | the merge invariant determines the result, and an empty list gives an empty dictionary |
| CombineDicts.LastHolder | lambda_functions/combine_dicts.py:31-32 | every merged key has a last dictionary holding it |
| Fabfile.Components | fabfile.py:176 | the split yields at least one component, and no component contains a separator |
| Fabfile.Underscored | fabfile.py:176 | `replace('-', '_')` turns each dash into an underscore and keeps every other character |
| Fabfile.JoinComponents | fabfile.py:176 | splitting and joining with `_` gives the name back with its dashes replaced |
| Fabfile.UnderscoredCons | fabfile.py:176 | replacing dashes works character by character from the front |
| Fabfile.JoinAfterEmpty | fabfile.py:176 | an empty leading component contributes just its `_` to the join |
| Fabfile.JoinAfterLetter | fabfile.py:176 | a character at the front of the first component stays at the front of the join |
| Fabfile.JoinCons | fabfile.py:176 | a component joined in front of at least one more is followed by one separator |
| Fabfile.JoinLetterCons | fabfile.py:176 | with more than one component, a character at the front of the first stays at the front of the join |
| Fabfile.HeadEmptyIff | fabfile.py:176-177 | the first component is empty exactly when the name is empty or starts with a separator |
| Fabfile.AdjacentSeparatorsUnfold | fabfile.py:176-177 | two separators in a row occur at the front or in the rest of the name |
| Fabfile.LaterComponentsAfterSeparator | fabfile.py:176-177 | after a leading separator, the later components are the components of the rest |
| Fabfile.LaterComponentsAfterLetter | fabfile.py:176-177 | after a leading non-separator, the later components are those of the rest |
| Fabfile.TailEmptyIff | fabfile.py:176-177 | a later component is empty exactly when the name ends with a separator or has two separators in a row |
| Fabfile.EmptyComponentIff | fabfile.py:175-177 | some component is empty, so `i[0]` raises, exactly when the name is empty, starts or ends with a separator, or has two in a row |
| Fabfile.Capitalized | fabfile.py:177 | capitalizing a component keeps its length, upper-cases its first character and lower-cases every later one |
| Fabfile.CapitalizedMatches | fabfile.py:177 | a capitalized component equals the component up to case and has no separator |
| Fabfile.LowerAppend | fabfile.py:177 | lowering a concatenation lowers each part |
| Fabfile.CapitalizedAllMatches | fabfile.py:177 | the joined capitalized components equal their concatenation up to case, have the same length and hold no separator |
| Fabfile.CapitalizedAll | fabfile.py:177 | the `''.join` of the capitalized components, in order |
| Fabfile.ConcatComponents | fabfile.py:176 | the concatenated components are the name's non-separator characters in order |
| Fabfile.LettersLength | fabfile.py:176 | those characters and the separators account for the whole name |
| Fabfile.CamelFrom | fabfile.py:175-177 | the reference definition of camel case, character by character: separators are dropped, a character that comes first or follows a separator is upper-cased, and every other character is lower-cased |
| Fabfile.CamelFromStart | fabfile.py:176-177 | without empty components, joining the capitalized components gives the character-wise camel case |
| Fabfile.CamelFromLater | fabfile.py:176-177 | within a component, the character-wise camel case lowers the rest of the component and capitalizes each later one |
| Fabfile.NoEmptyLaterComponent | fabfile.py:176 | a name without empty components has no empty later component |
| Fabfile.ComponentsAfterSeparator | fabfile.py:176 | a leading separator yields an empty first component followed by the components of the rest |
| Fabfile.CapitalizedCons | fabfile.py:177 | a component starting with a character is capitalized as that character upper-cased before the rest lowered |
| Fabfile.StartsComponent | fabfile.py:176-177 | a name without empty components starts with a character that is not a separator |
| Fabfile.ComponentsAfterLetter | fabfile.py:176 | a leading non-separator joins the first component of the rest, and the later components are those of the rest |
| Fabfile.CapitalizedAfterLetter | fabfile.py:177 | capitalizing the components of a name that starts with a letter upper-cases that letter and lowers the rest of its component |
| Fabfile.LoweredAfterLetter | fabfile.py:177 | lowering the first component of a name that starts with a letter lowers that letter with the rest of the component |
| Fabfile.LowerFront | fabfile.py:177 | lowering a component with a character in front lowers that character first |
| Fabfile.CamelCase | fabfile.py:175-177 | fails exactly when a component is empty. Otherwise the result is `CamelFrom`: each component's first character upper-cased and its other characters lower-cased, with the separators dropped. So it has no separator, equals the name's letters up to case, and is shorter than the name by the number of separators |
| Fabfile.MergedSections | fabfile.py:500-506 | part way through the merge, the sections are those of the template and of the other template's merged names |
| Fabfile.MergeOneSection | fabfile.py:500-506 | merging one more name of the other template adds or updates that section alone |
| Fabfile.Template.Combine | fabfile.py:500-506 | the merged template has the union of the sections. Sections of one side only are kept as they are, and a shared section is updated entry by entry with the other template winning |
| Fabfile.EndOfFile | fabfile.py:263-266 | the lines read are those before the first empty string |
| Fabfile.IsComment | fabfile.py:267 | `line.startswith('#')` |
| Fabfile.Uncommented | fabfile.py:268 | `line[2:]`: the comment sign and the character after it cut |
| Fabfile.IsMarker | fabfile.py:267-270 | a comment line whose text after the two cut characters strips to `---` |
| Fabfile.FirstMarker | fabfile.py:267-275 | the first `---` comment line in a range, or the end of the range when there is none |
| Fabfile.CommentBodies | fabfile.py:267-276 | only lines of the range contribute |
| Fabfile.FrontMatter | fabfile.py:262-276 | the definition `ScanFrontMatter` is proved against: the cut comment lines strictly between the first marker and the next marker or the end of the file, or None without a first marker |
| Fabfile.FirstMarkerExtends | fabfile.py:267-275 | the first marker of a range stays first in a longer range, or the search continues past the range |
| Fabfile.ScanOutside | fabfile.py:269-271 | before the front matter, a marker line opens it and any other line leaves it unopened |
| Fabfile.ScanInside | fabfile.py:272-276 | inside the front matter, a comment line that is not a marker is appended cut, and any other line is skipped |
| Fabfile.InsideMarkers | fabfile.py:267-275 | a non-marker line inside the front matter keeps the opening marker and moves the search for the closing one past it |
| Fabfile.CommentBodiesExtend | fabfile.py:272-276 | one more line in the range appends its cut comment text, when it is a comment, to the lines collected |
| Fabfile.ScanEnds | fabfile.py:263-276 | stopping at the end of the file or at the closing marker yields the front matter |
| Fabfile.ScanStep | fabfile.py:269-276 | a line that does not close the front matter takes the front matter so far to its `ScanNext` successor |
| Fabfile.ScanLine | fabfile.py:267-276 | one line read by the scan: it closes the scan exactly when the front matter is open and the line is a marker, and otherwise gives the front matter so far after it |
| Fabfile.ScanFrontMatter | fabfile.py:262-276 | the scan returns the comment lines strictly between the first marker and the next marker or the end of the file, cut, or None when no marker opens them |
| Fabfile.HasFrontMatter | fabfile.py:278 | `len(yaml_lines)` fails exactly when no front matter was found, and is positive exactly when it holds lines |
| Fabfile.Mentions | fabfile.py:321 | Python's `in` on the policies value: list membership for a list, a substring test for a string, and a key test for a dictionary |
| Fabfile.FixedPolicies | fabfile.py:319-322 | afterwards the default policy is mentioned. A missing or null list becomes the default alone. A list keeps its entries in order and gains the default at the end exactly when it lacked it. Any other value is never appended to: a number or a bool fails the search, and a string or a dict is kept unchanged when it mentions the default and fails the append otherwise |
| Fabfile.FixedPoliciesIdempotent | fabfile.py:319-322 | fixing a fixed policy list changes nothing |
| Fabfile.FixUpPolicies | fabfile.py:319-322 | the properties fail or succeed as the fix-up does, and on success only `Policies` changes, to the fixed list |
| Fabfile.IsResourceLine | fabfile.py:429 | the line, with leading whitespace removed, starts with `"Resource":` |
| Fabfile.FirstColon | fabfile.py:430 | the index of the first colon, or the length when there is none |
| Fabfile.ResourceLineHasColon | fabfile.py:429-430 | a `"Resource":` line always has a colon to split at |
| Fabfile.SplitAtColon | fabfile.py:430 | the prefix, a colon and the rest give back the line, and the prefix has no colon |
| Fabfile.ResourceName | fabfile.py:430-431 | the text after the first colon, with spaces, quotes and commas stripped from both ends |
| Fabfile.ResourcePrefix | fabfile.py:430 | the part of a resource line before its first colon |
| Fabfile.RefersToFunction | fabfile.py:429-432 | the line is a resource line whose stripped name is one of the Lambda functions |
| Fabfile.RewriteLine | fabfile.py:429-448 | a line is kept as it is unless it is a resource line naming a Lambda function. Then it becomes a reference to the camel-cased function's ARN after the line's own prefix, or fails as the camel-casing does |
| Fabfile.RewrittenVerbatim | fabfile.py:429-448 | a rewritten line is unchanged exactly when it does not name a Lambda function |
| Fabfile.RewritesAppend | fabfile.py:427-448 | appending the next line's rewrite to the rewrites of the lines before it gives the rewrites of one more line |
| Fabfile.RewriteResourceLines | fabfile.py:427-448 | one output line per input line, each as `RewriteLine` says. A line is kept exactly when it does not name a Lambda function, and the rewrite fails exactly when some line's does |
| Fabfile.PlanChangeSet | fabfile.py:550-563 | a CREATE change set exactly when there is no stack or it is in REVIEW_IN_PROGRESS or ROLLBACK_COMPLETE; the stack is deleted first exactly in ROLLBACK_COMPLETE |
| Fabfile.StatusName | fabfile.py:641-644 | the stack's status, or `NOT_EXIST` when there is no stack |
| Fabfile.Handled | fabfile.py:646-656 | the five statuses for which the task returns without asking: DELETE_IN_PROGRESS, DELETE_FAILED, NOT_EXIST, CREATE_FAILED and DELETE_COMPLETE |
| Fabfile.DeleteStack | fabfile.py:638-666 | a stack is deleted exactly when its status is none of the five handled ones and the answer is `delete`. A missing stack counts as NOT_EXIST, so there is nothing to delete |

## Left out

- The AWS calls (`head_object`, `put_object`, `copy_object`, `delete_object`, `list_objects_v2`,
  `get_bucket_location`, CloudFormation, Lambda, IAM, Step Functions) are modelled by their effect
  on the values above. The destination bucket's effect is modelled as an in-memory map. Listing and
  location lookups are parameters of the functions.
- Threads and their interleaving: the pool is modelled as one sequential pass in queue order.
  Which worker takes which key is not modelled, and neither is the order of requests across workers.
- The `handler` functions of copy_keys and delete_orphaned_keys only read event fields and call the
  modelled pool, so the modelled pool starts from the keys. The region they compute from `sourceRegion`
  or the function ARN is not modelled; nor is it for list_bucket.
- `CopyKeys.CollectMetadata` returns the metadata as a map, not the sorted JSON text, and compares
  the maps. Two values that `json.dumps(default=str)` prints alike but that differ are told apart by
  the model.
- `ListBucket.Listing` takes the `json.dumps` length as an abstract `size` function. The page limit
  28800 is computed in integers, while the source computes it in floating point.
- `ListBucket.Handler` assumes the listing returns at most the page size it was asked for; the S3
  service promises this.
- `GetBucketLocation.NamesBucket` and `GetBucketLocation.FirstBucketField` lower field names as
  ASCII. The event's keys are Unicode strings, and Python's `lower()` also folds non-ASCII letters
  (the Kelvin sign becomes `k`), so a name that contains "bucket" only after such folding is not
  recognised by the model.
- `GetBucketLocation.SelectBucket` reads an object event's fields in their listed order. Python 2
  dictionaries have no defined order, so "the first key" is whatever the runtime yields. A repeated
  name is looked up as the dictionary holds it, with its last value.
- `CombineDicts.Handler` models the items as JSON objects. `dict.update` also accepts a list of
  pairs, which the model treats as a failed item.
- `Fabfile.Template.Combine` models sections that are dictionaries. A top-level template value that
  is not a dictionary and is present in both templates would make `update` raise, and the model does
  not represent it.
- `Fabfile.ScanFrontMatter` takes the file as the strings `readline` returns. The YAML parse of the
  front matter, the defaults it updates, and the directory listing are not modelled.
- `Fabfile.RewriteLine` returns the `Fn::Join` reference as a `ResourceArn` value rather than a
  dictionary. `json.dumps` with indentation, which produces the lines, is not modelled.
- `Fabfile.PlanChangeSet` does not model the polling loop that waits for a deletion to finish, nor
  the change set's later execution.
- `Fabfile.DeleteStack` takes the typed answer as a parameter.
- Not modelled: zip packaging, MD5 checks, code URI timestamps, polling for stack and execution
  status, `compare_json_or_dicts`, `get_arn_from_policy_name`, logging and console output, the
  user configuration (fabfile_config_template.py is not part of this model), and the remaining
  fabfile tasks that only call AWS.
- `CopyKeys.SyncKeys` and `DeleteOrphanedKeys.DeleteObsoleteKeys` model failing head requests only.
  In the source, `put_object`, `copy_object` and `delete_object` can raise too, and such a raise
  also ends its worker. The model's writes always succeed, so the failures and unprocessed keys it
  gives are those of a run in which no write request fails.
- `CopyKeys.SecondRunWritesNothing` and `CopyKeys.RunWithoutFaultsSynchronizesAll` assume that a
  copy reproduces the source's head response, ETag included. S3 gives the copy of a multipart or
  SSE-KMS encrypted object a different ETag, and the source then copies such a key again on every
  run (copy_keys.py lines 141-145); the model does not capture that.
