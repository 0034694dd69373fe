# pymaid_addons, modelled in Dafny

`pymaid_addons` copies neurons (skeletons) from a source CATMAID project
to a target project, and transforms them along the way. It translates
them, prunes them by radius or by a volume, and adds or removes dummy
nodes. Every copy in the target carries a *linking annotation*:

    LINKED NEURON - [<relation> ]skeleton id <skid> in project id <pid> on server <url>

It names the source skeleton and how the copy was made. Later, updates
of the source neuron can be pushed along those links. The package also
does some housekeeping of a project: it deletes unlinked connectors and
purges unused annotations. It reads a connection config that names the
source and target projects.

This project models those rules with the CATMAID server replaced by
inputs:
- A neuron is a record of skeleton id, name, annotations, nodes and
  connectors. A node has an id, a parent, a position, a radius, a type
  and an edition time.
- What the server would answer is a parameter: the skeletons that carry
  an annotation, the linked neuron, the node details and the uploaded
  skeleton id.
- A console prompt is its answer, passed in as a string.
- Every upload, deletion or annotation edit the code would send is
  appended to a list of action records.
- Where the source rewrites a list of neurons in place, the model works
  on an `array<Neuron>`.
- The module-level cache of volumes, the nickname table and the global
  project handles are classes whose methods assign their fields.

Modules, one per file:
- `wrappers.dfy`: `Option` and `Result`.
- `text.dfy`: Python's `in` on strings, `str.split` as used, decimal `str(n)`, ASCII lower-casing.
- `escapes.dfy`: the two `add_escapes` variants and `remove_escapes`.
- `skeleton.dfy`: the neuron records.
- `linking.dfy`: the linking-annotation template, the pusher's filter and relation keys, and skid extraction.
- `uploader.dfy`: `upload_or_update_neurons`.
- `pushupdates.dfy`: `push_all_updates_by_skid`, and the skid extraction of `find_desyncs`.
- `transforms.dfy`: translation and radius pruning.
- `volumeprune.dfy`: the volume cache and the "first entry, last exit" walks.
- `dummynodes.dfy`: adding and deleting dummy nodes.
- `housekeeping.py` and `connections.py` become `housekeeping.dfy` and `connections.dfy`.

## Model

| member | source | states |
|---|---|---|
| Escapes.AddEscapes | pymaid_addons/manipulate_and_reupload_catmaid_neurons.py:1150-1153 | For distinct characters other than the backslash, the sequence of `str.replace` calls puts one backslash before each occurrence of those characters and changes nothing else. |
| Escapes.ReplaceExtendsEscape | pymaid_addons/manipulate_and_reupload_catmaid_neurons.py:1151-1152 | One more pass of the loop, replacing `c` by a backslash and `c`, escapes one more character on top of those already escaped. |
| Escapes.EscapedLength | pymaid_addons/manipulate_and_reupload_catmaid_neurons.py:1150-1153 | The escaped string is longer than the input by exactly the number of escaped characters it contains. |
| Escapes.EscapedConcat | pymaid_addons/manipulate_and_reupload_catmaid_neurons.py:1150-1153 | Escaping works character by character: it distributes over concatenation. |
| Escapes.EscapedIdentity | pymaid_addons/manipulate_and_reupload_catmaid_neurons.py:1150-1153 | A string with none of the characters is left unchanged. |
| Escapes.EscapedParenthesised | pymaid_addons/manipulate_and_reupload_catmaid_neurons.py:1150-1153 | In a string with one pair of parentheses, exactly those two characters gain a backslash. |
| Escapes.RemoveEscapes | pymaid_addons/housekeeping.py:81-84 | The `while` loop returns the input with every backslash removed, and its result has no backslash. |
| Escapes.ReplaceBackslashIsUnescaped | pymaid_addons/housekeeping.py:81-84 | One `replace` already removes every backslash, so the loop makes one pass. A string with a backslash gets strictly shorter. |
| Escapes.UnescapedHasNoBackslash | pymaid_addons/housekeeping.py:81-84 | Removing escapes leaves no backslash. |
| Escapes.UnescapedIdentity | pymaid_addons/housekeeping.py:81-84 | A string without a backslash is left unchanged. |
| Escapes.UnescapeEscaped | pymaid_addons/housekeeping.py:77-84 | Round trip: removing the escapes of an escaped, backslash-free string gives the string back. |
| Escapes.EscapeRoundTrip | pymaid_addons/housekeeping.py:77-84 | The two loops, run one after the other on a backslash-free string, return it unchanged. |
| Linking.LinkingAnnotationTagged | pymaid_addons/manipulate_and_reupload_catmaid_neurons.py:248-259 | Every linking annotation starts with `LINKED NEURON`, so the stripping at line 275 removes it from a neuron that is re-uploaded. |
| Linking.SkidPatternIff | pymaid_addons/linked_neuron_tools.py:98-100 | A linking annotation contains `skeleton id N ` (with the trailing space) exactly when N is its skid, as long as neither the relation followed by a space nor the server spells out `skeleton id `. So skid 4 never matches the annotation of skid 42. |
| Linking.PidPatternIff | pymaid_addons/linked_neuron_tools.py:98-100 | A linking annotation contains `project id P ` exactly when P is its project id, as long as neither the relation followed by a space nor the server spells out `project id `. |
| Linking.LinkingAnnotationMentionsSource | pymaid_addons/linked_neuron_tools.py:98-100 | For any relation and server, the pusher's filter accepts a linking annotation for its own skid and project id. |
| Linking.MentionsSourceIff | pymaid_addons/linked_neuron_tools.py:98-100 | When neither label appears in the relation (followed by a space) or the server, the pusher's filter accepts a linking annotation exactly for its own skid and project id. |
| Linking.SkidLabelFirstAt | pymaid_addons/linked_neuron_tools.py:14 | When the relation followed by a space does not spell out `skeleton id `, the first `skeleton id ` of a linking annotation is the one the template wrote, right after the relation, whatever the server holds. |
| Linking.ExtractSkidRoundTrip | pymaid_addons/linked_neuron_tools.py:14 | Under the same condition on the relation, reading the text between the first `skeleton id ` and the next space out of a linking annotation gives back `str(skid)`. |
| Linking.FiredKeys | pymaid_addons/linked_neuron_tools.py:116-117 | The keys that fire are exactly the keys that are substrings of the annotation; there is no break after the first. |
| Linking.FiresOnly | pymaid_addons/linked_neuron_tools.py:116-117 | An annotation that contains exactly one of the keys fires that key alone. |
| Linking.FiresNone | pymaid_addons/linked_neuron_tools.py:116-117 | An annotation that contains none of the keys fires nothing. |
| Linking.KeyFiresOnLinkingAnnotation | pymaid_addons/linked_neuron_tools.py:116-117 | A key contained in the escaped relation is contained in the escaped linking annotation built with that relation. |
| Linking.CopyKeyFiresOnlyItself | pymaid_addons/linked_neuron_tools.py:67-78 | No other key is a substring of `copy of`. |
| Linking.TranslationKeyFiresOnlyItself | pymaid_addons/linked_neuron_tools.py:67-78 | No other key is a substring of `translation of`. |
| Linking.ElasticKeyFiresOnlyItself | pymaid_addons/linked_neuron_tools.py:67-78 | No other key is a substring of `elastic transformation of`. |
| Linking.ElasticFlippedKeyFiresOnlyItself | pymaid_addons/linked_neuron_tools.py:67-78 | No other key is a substring of `elastic transformation and flipped of`. |
| Linking.RadiusKeyFiresOnlyItself | pymaid_addons/linked_neuron_tools.py:67-78 | No other key is a substring of `radius pruned of`. |
| Linking.CopyRelationFiresOwnKey | pymaid_addons/manipulate_and_reupload_catmaid_neurons.py:495 | The relation `copy of`, escaped, fires its own key and no other. |
| Linking.TranslationRelationFiresOwnKey | pymaid_addons/manipulate_and_reupload_catmaid_neurons.py:533 | The relation `translation of`, escaped, fires its own key and no other. |
| Linking.ElasticRelationFiresOwnKey | pymaid_addons/manipulate_and_reupload_catmaid_neurons.py:723 | The relation `elastic transformation of`, escaped, fires its own key and no other. |
| Linking.ElasticFlippedRelationFiresOwnKey | pymaid_addons/manipulate_and_reupload_catmaid_neurons.py:721 | The relation `elastic transformation and flipped of`, escaped, fires its own key and no other. |
| Linking.RadiusRelationFiresOwnKey | pymaid_addons/manipulate_and_reupload_catmaid_neurons.py:1091 | The relation `radius pruned of`, escaped, fires its own key and no other. |
| Linking.FeleVolumeKeyIff | pymaid_addons/linked_neuron_tools.py:74-75 | The escaped "first entry, last exit" relation for volume N contains the backslash-escaped key exactly when N is 109. |
| Linking.FeleRelationFiresOnlyForVolume109 | pymaid_addons/manipulate_and_reupload_catmaid_neurons.py:872 | The fele relation, escaped, fires the fele key when the volume is 109, and fires nothing otherwise. |
| Linking.StrictRelationFiresNothing | pymaid_addons/manipulate_and_reupload_catmaid_neurons.py:874 | The strict-prune relation fires none of the six keys, whatever the volume. |
| Linking.AnnotationKeyIff | pymaid_addons/linked_neuron_tools.py:116-117 | When the escaped server contains no key, a key is contained in the escaped linking annotation exactly when it is contained in the escaped relation: the template's own text holds no key. |
| Linking.FiredKeysAgree | pymaid_addons/linked_neuron_tools.py:116-117 | Two annotations that contain the same keys fire the same keys, in the same order. |
| Linking.LinkingAnnotationFiresAsRelation | pymaid_addons/linked_neuron_tools.py:116-117 | When the escaped server fires no key, the keys that fire on the escaped linking annotation are exactly those that fire on the escaped relation. |
| Linking.TransformAnnotationsFireOwnKey | pymaid_addons/linked_neuron_tools.py:67-78 | The escaped linking annotations written by the copy, translation and radius-prune uploads each fire their own key and no other. |
| Linking.ElasticAnnotationsFireOwnKey | pymaid_addons/linked_neuron_tools.py:67-78 | The escaped linking annotations written by the two elastic uploads each fire their own key and no other. |
| Linking.VolumeAnnotationsFire | pymaid_addons/linked_neuron_tools.py:74-78 | The escaped linking annotation of a fele prune fires the fele key exactly when the volume is 109, and nothing otherwise. That of a strict prune fires nothing. |
| Uploader.StripLinked | pymaid_addons/manipulate_and_reupload_catmaid_neurons.py:275-276 | Exactly the annotations that do not contain `LINKED NEURON` are kept. |
| Uploader.UpdatedAnnotationTagged | pymaid_addons/manipulate_and_reupload_catmaid_neurons.py:282-283 | The time-stamp annotation also contains `LINKED NEURON`, so the next upload strips it too. |
| Uploader.MinEditionTime | pymaid_addons/manipulate_and_reupload_catmaid_neurons.py:315 | The minimum edition time is at most every node's edition time and is reached by some node. |
| Uploader.EditedIff | pymaid_addons/manipulate_and_reupload_catmaid_neurons.py:315-316 | The linked neuron counts as edited exactly when two of its nodes have different edition times. |
| Uploader.MissingFrom | pymaid_addons/manipulate_and_reupload_catmaid_neurons.py:340-341 | Exactly the linked neuron's annotations that are not yet present are appended. |
| Uploader.NoMatchUploadsNew | pymaid_addons/manipulate_and_reupload_catmaid_neurons.py:278-283 | With no linked skeleton, the neuron keeps its annotations without `LINKED NEURON` and gains the linking annotation and the time stamp. These two are then its only tagged annotations. Unless faking, it is uploaded as a new skeleton without `force_id`. |
| Uploader.SeveralMatchesSkip | pymaid_addons/manipulate_and_reupload_catmaid_neurons.py:284-287 | With several linked skeletons nothing is uploaded, and the neuron is only stripped in memory. |
| Uploader.OneMatchUpdatesIff | pymaid_addons/manipulate_and_reupload_catmaid_neurons.py:288-348 | With one linked skeleton (and no faking), an upload happens exactly when the name prompt, the edited-nodes prompt and `refuse_to_update` allow it. It then targets that skeleton and its neuron id with `force_id`. |
| Uploader.UpdateKeepsAnnotations | pymaid_addons/manipulate_and_reupload_catmaid_neurons.py:337-341 | An update keeps the stripped annotations and appends the time stamp. It also carries every annotation of the linked neuron, so none is removed. |
| Uploader.SkipOnlyStrips | pymaid_addons/manipulate_and_reupload_catmaid_neurons.py:298-333 | A refused or skipped neuron uploads nothing and is only stripped of its tagged annotations. |
| Uploader.FakeUploadsNothing | pymaid_addons/manipulate_and_reupload_catmaid_neurons.py:350-362 | With `fake` set, no neuron is uploaded. |
| Uploader.Run | pymaid_addons/manipulate_and_reupload_catmaid_neurons.py:238-362 | The responses of the loop with the corrected step hold at most one upload per neuron, and none when faking. |
| Uploader.RunOnlyUploadsUnskipped | pymaid_addons/manipulate_and_reupload_catmaid_neurons.py:350-362 | Every response is the upload of some neuron whose decision was not a skip. |
| Uploader.SourceAnnotationNamesUpload | pymaid_addons/manipulate_and_reupload_catmaid_neurons.py:364-373 | The reverse annotation written on the source neuron names the uploaded skeleton and the target project, so the pusher's filter accepts it. When the relation followed by a space does not spell out `skeleton id `, the skid also reads back out of it. |
| Uploader.NewlyUnlinked | pymaid_addons/manipulate_and_reupload_catmaid_neurons.py:409-410 | The warning set holds exactly the connectors unlinked at the end and not at the start. |
| Uploader.UploadOrUpdateNeurons | pymaid_addons/manipulate_and_reupload_catmaid_neurons.py:219-420 | The loop rewrites each neuron of the array in place as the corrected step decides. The responses are the corrected run's list of uploads, and the warning set is empty when faking and the set difference otherwise. |
| Uploader.SeveralMatchesUploadUnlinkedAsWritten | pymaid_addons/manipulate_and_reupload_catmaid_neurons.py:284-287 | As written, several linked skeletons (without `fake`) lead to an upload as a new skeleton with no linking annotation; the corrected step uploads nothing. |
| Uploader.RunAsWritten | pymaid_addons/manipulate_and_reupload_catmaid_neurons.py:238-362 | The responses of the loop as written, several matches included, hold at most one upload per neuron. |
| Uploader.RunAsWrittenAgrees | pymaid_addons/manipulate_and_reupload_catmaid_neurons.py:284-362 | When no neuron has several linked skeletons, the loop as written and the corrected one give the same responses. |
| Uploader.StepAsWrittenAgrees | pymaid_addons/manipulate_and_reupload_catmaid_neurons.py:284-348 | For a neuron with at most one linked skeleton, the step as written and the corrected step agree. |
| Uploader.RunAsWrittenUploadsAtLeast | pymaid_addons/manipulate_and_reupload_catmaid_neurons.py:284-362 | The loop as written uploads at least as many neurons as the corrected loop: the fall-through only adds uploads. |
| PushUpdates.LinkAnnotsExact | pymaid_addons/linked_neuron_tools.py:98-100 | The annotations considered are exactly the escaped forms of the target annotations that mention the source skid and the current source project id. |
| PushUpdates.FiredKeysSnoc | pymaid_addons/linked_neuron_tools.py:116-117 | Going through the keys in dictionary order adds the next key exactly when the annotation contains it. |
| PushUpdates.DispatchKeys | pymaid_addons/linked_neuron_tools.py:116-129 | The inner loop over the relation keys produces the records of the fold over the keys. |
| PushUpdates.KeysOutFired | pymaid_addons/linked_neuron_tools.py:116-129 | That fold makes one record per fired key, in key order. Each record is the dispatch or the `Skipped: <annot>` response, and the target skid is chained once per fired key. |
| PushUpdates.EveryContainedKeyFires | pymaid_addons/linked_neuron_tools.py:116-129 | For an annotation carried by exactly one target skeleton, every relation key it contains yields a record. |
| PushUpdates.AmbiguousAnnotationSkipped | pymaid_addons/linked_neuron_tools.py:104-111 | An annotation carried by zero or several target skeletons yields no record and no next skid. |
| PushUpdates.SkipDatesDecide | pymaid_addons/linked_neuron_tools.py:112-125 | Without skip dates every fired key dispatches an update from the source skid. With a target annotation containing a skip date, every record is `Skipped: <annot>`. |
| PushUpdates.DispatchAnnotation | pymaid_addons/linked_neuron_tools.py:103-129 | The body for one annotation produces what the specification function for one annotation does. |
| PushUpdates.PushPass | pymaid_addons/linked_neuron_tools.py:96-129 | One pass of the `while` loop, over the skids and their annotations, produces that pass's records and next skids. |
| PushUpdates.NoNextWithoutChain | pymaid_addons/linked_neuron_tools.py:126-128 | Without `recurse and not fake` no next skid is collected. |
| PushUpdates.OnePassUnlessChain | pymaid_addons/linked_neuron_tools.py:94-133 | Unless `recurse` is set and `fake` is off, the loop makes exactly one pass. |
| PushUpdates.FirstRaise | pymaid_addons/linked_neuron_tools.py:119-123 | The position of the first dispatch whose transform raises, and no raising dispatch before it; None exactly when no dispatch raises. |
| PushUpdates.PushedByCutsPassesBy | pymaid_addons/linked_neuron_tools.py:95-133 | Whatever one pass does, running the passes one after another and stopping at the first raising dispatch gives the whole no-raise log cut at its first raising dispatch. |
| PushUpdates.PushedCutsPasses | pymaid_addons/linked_neuron_tools.py:95-133 | The push, pass by pass, ending at the first raising transform, equals the log it would write had nothing raised, cut at that log's first raising dispatch. |
| PushUpdates.NothingRaisesPushesAll | pymaid_addons/linked_neuron_tools.py:95-135 | When no transform raises, the push returns every pass's responses. |
| PushUpdates.PassSourcedFrom | pymaid_addons/linked_neuron_tools.py:97-123 | Every transform a pass dispatches is run on a skid of the project the pass reads from. |
| PushUpdates.PassesSourcedFrom | pymaid_addons/linked_neuron_tools.py:95-133 | Every transform the loop dispatches is run from the source project or, in a chain, from the target project. |
| PushUpdates.PushedRaisedFrom | pymaid_addons/linked_neuron_tools.py:95-133 | The dispatch that ends a push is a transform run from the source project or, in a chain, from the target project. |
| PushUpdates.LeftOnRaisingProject | pymaid_addons/linked_neuron_tools.py:95-135 | The dispatch that ends a push comes from the source project when the first pass raises, and from the target project when a later pass does. |
| PushUpdates.PushTurn | pymaid_addons/linked_neuron_tools.py:96-133 | One turn of the `while` loop is a pass from the handle's project. It either fails with the plan's cut at the first raising dispatch, which comes from that project and leaves the id unchanged, or writes the pass with nothing raising. In the second case a chain switches the source project id to the target's, and the rest of the plan is the passes from the next skids. Without a chain the pass yields no next skids. |
| PushUpdates.PushLoop | pymaid_addons/linked_neuron_tools.py:95-133 | The `while` loop returns the no-raise log cut at its first raising dispatch. Without a chain the project id is unchanged on success. On a raise the id is left on the raising dispatch's project. |
| PushUpdates.LoopDone | pymaid_addons/linked_neuron_tools.py:95 | When no skids or passes are left, the responses are the whole log and none of them raised. |
| PushUpdates.PushAllUpdates | pymaid_addons/linked_neuron_tools.py:92-135 | The outcome is the push that stops at the first raising transform. On a normal return the project id is restored. On a raise the handle is left on the project of the raising dispatch: with PushUpdates.LeftOnRaisingProject, that is the target's whenever a pass after the first raises, since there is no `finally`. |
| PushUpdates.TranslationAnnotationDispatches | pymaid_addons/linked_neuron_tools.py:116-123 | A `translation of` linking annotation carried by one target skeleton, with no skip dates, dispatches the translation (the entry of line 69) of its source skid. |
| PushUpdates.TranslationPushRaisesAsWritten | pymaid_addons/linked_neuron_tools.py:69 | As written, pushing a skid whose only linking annotation is such a translation link fails. When the server makes nothing raise, the raising dispatch is that translation. |
| PushUpdates.TranslationPushDispatches | pymaid_addons/linked_neuron_tools.py:69 | With the translation passed through and nothing raising, the same push succeeds and its responses include the translation's dispatch. |
| PushUpdates.OwnRelationFires | pymaid_addons/linked_neuron_tools.py:116-117 | A linking annotation written with a relation that contains a key fires that key when pushed. |
| PushUpdates.CopyLinkRerunsCopy | pymaid_addons/linked_neuron_tools.py:67-68 | A copy's linking annotation dispatches the copy update. |
| PushUpdates.Tagged | pymaid_addons/linked_neuron_tools.py:14 | Exactly the annotations starting with `LINKED NEURON` are considered. |
| PushUpdates.ExtractAll | pymaid_addons/linked_neuron_tools.py:14 | The comprehension succeeds exactly when every considered annotation has a `skeleton id ` field, and then yields one skid per annotation. |
| PushUpdates.LinkedSkidOfLinkedNeuron | pymaid_addons/linked_neuron_tools.py:14-16 | For a neuron whose single tagged annotation is a linking annotation whose relation (followed by a space) does not spell out `skeleton id `, `find_desyncs` recovers `str(skid)`. |
| PushUpdates.SeveralTaggedFails | pymaid_addons/linked_neuron_tools.py:15 | Several tagged annotations make the assertion fail with AssertionError when every one has a `skeleton id ` field. When one lacks it, the comprehension raises IndexError first. |
| Transforms.TranslationVector | pymaid_addons/manipulate_and_reupload_catmaid_neurons.py:561-577 | ValueError unless the translation has length 3 and the unit is `nm` or `pixel`. Nanometres are used as given, and pixels are multiplied component-wise by the pixel size. |
| Transforms.ShiftNodes | pymaid_addons/manipulate_and_reupload_catmaid_neurons.py:585-587 | Every node moves by the vector, and only its position changes. |
| Transforms.ShiftConnectors | pymaid_addons/manipulate_and_reupload_catmaid_neurons.py:589-591 | Every connector moves by the vector, and only its position changes. |
| Transforms.TranslateNeurons | pymaid_addons/manipulate_and_reupload_catmaid_neurons.py:557-595 | On a bad argument the neurons are untouched and the error is reported. Otherwise every neuron in the array is replaced by its translated form. |
| Transforms.TranslationKeepsTopology | pymaid_addons/manipulate_and_reupload_catmaid_neurons.py:583-593 | Translation keeps node ids, parents, radii, types, annotations and the skeleton id. |
| Transforms.TranslationsCompose | pymaid_addons/manipulate_and_reupload_catmaid_neurons.py:585-593 | Shifting by t1 and then t2 moves nodes and connectors as shifting by t1 + t2 does. The name gains ` - translated` twice. |
| Transforms.TranslationByZero | pymaid_addons/manipulate_and_reupload_catmaid_neurons.py:585-591 | The zero vector moves nothing. |
| Transforms.Orphaned | pymaid_addons/manipulate_and_reupload_catmaid_neurons.py:1127-1136 | A kept node keeps its id, radius and position. Its parent, if any, is a kept node. |
| Transforms.SubsetNodes | pymaid_addons/manipulate_and_reupload_catmaid_neurons.py:1127-1136 | A node is in the subset exactly when it is the orphaned form of a node that the radius rule selects. |
| Transforms.RadiusPruneKeepsExactly | pymaid_addons/manipulate_and_reupload_catmaid_neurons.py:1127-1144 | A successful prune keeps exactly the nodes with radius at least (or, without `keep_larger_radii`, equal to) the threshold, in both directions. It leaves one fragment at most and appends the radius annotation. |
| Transforms.RadiusPruneTwiceFails | pymaid_addons/manipulate_and_reupload_catmaid_neurons.py:1121-1144 | The new name contains `radius`, so pruning the result again raises. |
| Transforms.RadiusPruneNeurons | pymaid_addons/manipulate_and_reupload_catmaid_neurons.py:1113-1146 | The neurons before the first failing one are pruned in place. In the model the failing neuron and those after it keep their old value. The call fails exactly when some neuron fails, with that neuron's error. |
| Transforms.RadiusPruneForUpload | pymaid_addons/manipulate_and_reupload_catmaid_neurons.py:1094-1097 | Every node handed to the uploader satisfies the caller's radius rule. |
| Transforms.KeepLargerIgnoredAsWritten | pymaid_addons/manipulate_and_reupload_catmaid_neurons.py:1097 | As written, a radius-600 node survives a prune to radius 500 with `keep_larger_radii=False`; the corrected wrapper drops it. |
| VolumePrune.VolumeCache.constructor | pymaid_addons/manipulate_and_reupload_catmaid_neurons.py:917 | The cache starts empty. |
| VolumePrune.VolumeCache.Get | pymaid_addons/manipulate_and_reupload_catmaid_neurons.py:944-955 | A cached volume is returned without fetching. Otherwise it is fetched and stored; a failed fetch raises and stores nothing. |
| VolumePrune.NeuriteEnds | pymaid_addons/manipulate_and_reupload_catmaid_neurons.py:985-992 | The candidate ends are exactly the radius-500 nodes with no radius-500 child. |
| VolumePrune.PrimaryNeuriteEnd | pymaid_addons/manipulate_and_reupload_catmaid_neurons.py:985-999 | A found end is such a node, and "not a motor neuron" is raised exactly when there is none. |
| VolumePrune.TwoEndsRaise | pymaid_addons/manipulate_and_reupload_catmaid_neurons.py:996-999 | Two distinct ends raise "multiple primary neurite ends". |
| VolumePrune.WalkBackward | pymaid_addons/manipulate_and_reupload_catmaid_neurons.py:1005-1011 | The `while` loop stepping to the parent computes the backward walk. |
| VolumePrune.AncestorShift | pymaid_addons/manipulate_and_reupload_catmaid_neurons.py:1009-1011 | The k-th ancestor of the parent is the (k+1)-th ancestor of the node. |
| VolumePrune.WalkBackSound | pymaid_addons/manipulate_and_reupload_catmaid_neurons.py:1003-1012 | The distal cut is an ancestor of the end, reached through nodes that are neither branches nor inside the volume, and its parent is one or the other. |
| VolumePrune.WalkBackStopsAtOnce | pymaid_addons/manipulate_and_reupload_catmaid_neurons.py:1006-1008 | When the end's parent is a branch or in the volume, the end itself is the cut. |
| VolumePrune.RootOf | pymaid_addons/manipulate_and_reupload_catmaid_neurons.py:1016 | The root found has no parent, and it is missing only when every node has a parent. |
| VolumePrune.PositiveRadius | pymaid_addons/manipulate_and_reupload_catmaid_neurons.py:1016-1018 | Exactly the nodes with positive radius are kept. |
| VolumePrune.StartNode | pymaid_addons/manipulate_and_reupload_catmaid_neurons.py:1016-1018 | The forward walk starts at the first node of the table, in table order, that is a child of the root and has a positive radius. It fails with MissingNode exactly when there is no root. It fails with NoStartNode exactly when there is a root but no child of it has a positive radius. |
| VolumePrune.FirstPositiveChild | pymaid_addons/manipulate_and_reupload_catmaid_neurons.py:1016-1018 | The head of the filtered children is the first node of the table that is a child of the node and has a positive radius, as `nodes.index[...][0]` picks it. |
| VolumePrune.WalkForward | pymaid_addons/manipulate_and_reupload_catmaid_neurons.py:1020-1023 | The `while` loop stepping to the first child computes the forward walk. |
| VolumePrune.WalkForthStops | pymaid_addons/manipulate_and_reupload_catmaid_neurons.py:1020-1022 | The forward walk ends inside the volume or at a node that is not a slab; that node is the start node or a node of the table. |
| VolumePrune.FindCuts | pymaid_addons/manipulate_and_reupload_catmaid_neurons.py:983-1030 | Both walks, in order, with the first error they raise. |
| VolumePrune.CutsWarnOutsideVolume | pymaid_addons/manipulate_and_reupload_catmaid_neurons.py:1020-1027 | The proximal cut is in the volume or not a slab, and the branch warning is shown exactly when it is outside the volume. |
| VolumePrune.VolumePruneNeurons | pymaid_addons/manipulate_and_reupload_catmaid_neurons.py:918-1054 | A volume that is neither cached nor fetchable raises VolumeNotFound before any neuron is touched and leaves the cache alone. Otherwise the cache gains the fetched volume, the neurons up to the first failure are pruned in place and the rest are untouched. The call succeeds exactly when every neuron prunes; a failure is that of the first failing neuron, and on success the returned cut points are those of each neuron. |
| VolumePrune.VolumePruneTwiceFails | pymaid_addons/manipulate_and_reupload_catmaid_neurons.py:966-970 | The new name contains `pruned by vol`, so pruning the result again raises. |
| VolumePrune.FelePruneAnnotates | pymaid_addons/manipulate_and_reupload_catmaid_neurons.py:1045-1050 | In fele mode the neuron gains the first-entry-last-exit annotation, and the walk's cut points are returned. |
| VolumePrune.NoEndNoFele | pymaid_addons/manipulate_and_reupload_catmaid_neurons.py:993-995 | A neuron with no primary-neurite end cannot be pruned in fele mode. |
| DummyNodes.AddActions | pymaid_addons/manipulate_and_reupload_catmaid_neurons.py:1204-1219 | At most one addition per neuron, and none when faking. |
| DummyNodes.AddDummyNodes | pymaid_addons/manipulate_and_reupload_catmaid_neurons.py:1198-1221 | Without a remote instance the assertion fails. Otherwise the additions are made in order. |
| DummyNodes.AddActionsExactly | pymaid_addons/manipulate_and_reupload_catmaid_neurons.py:1204-1215 | Each addition is at (-1, -1, z) under the only node of a single-node neuron, and every single-node neuron gets one. |
| DummyNodes.WithDummyNodes | pymaid_addons/manipulate_and_reupload_catmaid_neurons.py:1247-1256 | Exactly the two-node neurons with a node at the dummy (x, y) are kept. |
| DummyNodes.NodeIdsAt | pymaid_addons/manipulate_and_reupload_catmaid_neurons.py:1266-1267 | Exactly the ids of nodes at the dummy (x, y) are collected. |
| DummyNodes.DummyIds | pymaid_addons/manipulate_and_reupload_catmaid_neurons.py:1266-1267 | The same over a list of neurons. |
| DummyNodes.DeleteDummyNodes | pymaid_addons/manipulate_and_reupload_catmaid_neurons.py:1239-1278 | Without a remote instance the assertion fails, and with no neuron to clean it raises ValueError. Otherwise one deletion of the dummy node ids is made, or none when faking. |
| DummyNodes.DeletesExactlyDummyNodes | pymaid_addons/manipulate_and_reupload_catmaid_neurons.py:1246-1267 | A node id is deleted exactly when it is a node at the dummy (x, y) of a two-node neuron. |
| DummyNodes.AddThenDeleteFindsDummy | pymaid_addons/manipulate_and_reupload_catmaid_neurons.py:1211-1214 | A single-node neuron with its dummy node added is one the deletion picks up, dummy node included. |
| Housekeeping.Resolve | pymaid_addons/housekeeping.py:8-13 | None or `'source'` gives the source project. `'target'` gives the target project, or None when the connection has no target. Anything else is used as given. |
| Housekeeping.ResolveIdempotent | pymaid_addons/housekeeping.py:25-32 | Resolving the resolved argument again, as `find_unlinked_connectors` does, leaves a project unchanged. Only a missing target, already None, would turn into the source, and `clear_cache` raises on it first. |
| Housekeeping.UnlinkedIff | pymaid_addons/housekeeping.py:20-21 | An id is returned exactly when some connector with that id has a null type. |
| Housekeeping.UnlinkedConcat | pymaid_addons/housekeeping.py:20-21 | The filter keeps table order. |
| Housekeeping.DeleteUnlinkedConnectors | pymaid_addons/housekeeping.py:24-41 | A project argument that is neither None, `'source'`, `'target'` nor an instance raises AttributeError, since `remote_instance.clear_cache()` (line 31) is called on a string. So does `'target'` when the connection has no target project, since the handle is then None. Otherwise nothing happens when there is nothing to delete or the answer is not `Y`/`y`, and each unlinked connector is deleted, in order, in the resolved project. |
| Housekeeping.DummySkid | pymaid_addons/housekeeping.py:65-70 | A dummy neuron is known exactly for projects 2, 13, 38 and 59. |
| Housekeeping.PurgeActions | pymaid_addons/housekeeping.py:86-97 | The server calls come in pairs. |
| Housekeeping.PurgeUnusedAnnotations | pymaid_addons/housekeeping.py:55-97 | The project argument is resolved as for the deletion. A name other than `'source'`/`'target'`, or `'target'` with no target project, raises AttributeError at `remote_instance.project_id` (line 62). A project without a dummy neuron raises before any lookup. Otherwise the loop issues the add-and-remove pairs of the purge rule. |
| Housekeeping.PurgedExactly | pymaid_addons/housekeeping.py:86-97 | An annotation is attached to the dummy neuron exactly when it is unused and purging it is forced or confirmed. An annotation in use is never touched. |
| Housekeeping.PurgeActionsPaired | pymaid_addons/housekeeping.py:96-97 | Every attachment is immediately followed by the removal of the same annotation from the same neuron. |
| Housekeeping.PurgedAnnotationAsWrittenWithoutBackslash | pymaid_addons/housekeeping.py:96-97 | For a name without a backslash, the as-written annotation is the name itself. |
| Housekeeping.BackslashNamePurgesAnother | pymaid_addons/housekeeping.py:96-97 | As written, the unused annotation `a\b` makes the loop attach and detach `ab`. |
| Connections.NicknameTable.constructor | pymaid_addons/connections.py:10-17 | The table starts as the six built-in nicknames. |
| Connections.NicknameTable.Update | pymaid_addons/connections.py:21-24 | Custom entries override built-in ones with the same key, and keep the others. |
| Connections.NicknameTable.ConfigFileFor | pymaid_addons/connections.py:29-30 | The lower-cased name is looked up; a name not in the table is used unchanged. |
| Connections.NicknamesIgnoreCase | pymaid_addons/connections.py:10-30 | `FANC` and `vnc` both resolve to `virtualflybrain_FANC.json`. |
| Connections.ConfigFileForLowerCase | pymaid_addons/connections.py:29-30 | When the lower-case form of a name is a key of the table, the name and its lower-case form resolve to the same config file. |
| Connections.Connect | pymaid_addons/connections.py:48-109 | ValueError exactly when one of the three source fields is missing or falsy. |
| Connections.TargetOutcomes | pymaid_addons/connections.py:81-109 | With all three target fields the pair is returned. With some of them, the source alone with the warning; with none, the source alone silently. |
| Connections.FalsySourceProjectIdRejected | pymaid_addons/connections.py:48-74 | A falsy source project id (0, 0.0, empty string, list or dictionary, False, None) is rejected like a missing one. |
| Connections.ZeroTargetProjectIdDropsTarget | pymaid_addons/connections.py:81-104 | A target project id of 0 drops the target, with the warning when another target field is set. |
| Connections.Handles.GetSourceProjectId | pymaid_addons/connections.py:122-125 | Returns the source project id. |
| Connections.Handles.SetSourceProjectId | pymaid_addons/connections.py:128-130 | Stores the id, returns it, and leaves the target alone. |
| Connections.Handles.GetTargetProjectId | pymaid_addons/connections.py:133-139 | None when the target project is undefined, its id otherwise. |
| Connections.Handles.SetTargetProjectId | pymaid_addons/connections.py:142-147 | Changes nothing and returns None when the target is undefined. Otherwise it stores the id and returns it. |
| Connections.Handles.SetProjectIds | pymaid_addons/connections.py:150-153 | The target id defaults to the source id, and both setters' results are returned. |
| Connections.Handles.GetProjectIds | pymaid_addons/connections.py:156-157 | Both ids, the target one None when undefined. |

## Left out

- Server and library calls are inputs or action records; their own behaviour is not modelled. This covers `get_neuron`, `get_skids_by_annotation`, `upload_neuron`, `get_connectors`, `delete_nodes`, `add_annotations`, `remove_annotations`, `get_annotated`, `get_volume`, `in_volume`, `subset_neuron`, `prune_distal_to`, `prune_proximal_to`, `prune_by_volume`, `resample` and `break_fragments`.
- The server's responses to the updates that the pusher dispatches are not modelled. A dispatched update is recorded with its relation and source skid.
- Console output and the "press enter" prompts are left out. A Y/n prompt is its answer, given as a string or boolean.
- File I/O in `connections.py` is left out: reading the config and the custom nicknames, and path resolution. So are creating client instances, the API-key lookup, `print_project_name` and `clear_cache`.
- `time.strftime` is an input string, the start time.
- Coordinates and radii are integers. Floating-point positions and the float equality at the dummy coordinates are not modelled.
- A volume is the set of positions inside it; the mesh test of `in_volume` is not modelled.
- VolumePrune.VolumePruned: the pruning itself is done by the library, so the model returns the two cut points and leaves the node table as it was.
- The strict and resample branches of volume pruning are left out, and so is `only_keep_largest_fragment`. They are pure library calls.
- Transforms.RadiusPruneNeurons: when a neuron fails the two-fragment check, the source has already subset it in place (lines 1127-1136) before raising. The model leaves that neuron as it was.
- Transforms.SubsetNodes: assumes that `subset_neuron` makes a kept node whose parent was dropped a root. The library's source is not part of this model.
- VolumePrune.WalkBackward: a parent cycle would make the source loop forever; the model stops after as many steps as there are nodes and reports `WalkTooLong`. VolumePrune.WalkForward does the same.
- PushUpdates.PushAllUpdates: a cycle of links makes the recursive source loop forever. The model is bounded by a `maxPasses` argument and returns the passes made so far.
- PushUpdates.PushAllUpdates: the extra keyword arguments a caller passes on to every transform are not modelled. Which transform calls raise is an input; `RaisesAsWritten` is the case of a call that passes no `translation`.
- The fetch of the target neuron's annotations when skip dates are given is an input, a function from target skid to annotations.
- Uploader.UploadOrUpdateNeurons: the failure of `add_annotations` on the source neuron is left out, together with its message. So is the `get_skids_by_annotation` exception that the source swallows, since a failed lookup is modelled as no match.
- Uploader.EditedIff: the source takes `min` of an empty node table, and the model treats a neuron without nodes as not edited.
- The `is` comparisons (`linking_relation is ''`, `unit is 'pixel'`, `len(...) is 0`, `len(...) is not 1`) are modelled as equality, as CPython evaluates them for these small values.
- The affine and elastic transforms are left out (`affine_transforms.py`, `warp_points_between_FANC_and_template.py`, `get_affinetransformed_neurons_by_skid`, `get_elastictransformed_neurons_by_skid`). They are floating-point matrix arithmetic and an external binary. The two elastic linking relations are modelled. The affine relation (`affine transformation using {transform_file} of`, manipulate_and_reupload_catmaid_neurons.py:637) is not, and neither is which keys it fires. It contains no key unless the file name forms one with the text around it.
- `replace_skeleton_from_swc` and `get_pruned_by_hardcoded_dict` are left out: SWC parsing, plotting and rerooting.
- The `pull_*` functions are unfinished and left out, and so is `find_overlapping_connectors`, which stops after fetching.
- `find_desyncs` is modelled only for its skid extraction and assertion. The counting of nodes and connectors it goes on to do is left out.
- The `*_by_annotations` wrappers only look up skids and are left out.
- Housekeeping.PurgeUnusedAnnotations: the exception re-raised from `get_annotated` is left out. The use count is an input function.
- Linking.SkidPatternIff, Linking.PidPatternIff, Linking.MentionsSourceIff: the "only its own ids" direction needs a relation (followed by a space) and a server that do not themselves spell out `skeleton id ` or `project id `. With such a relation the filter can also accept other ids. The direction "accepts its own ids" (Linking.LinkingAnnotationMentionsSource) holds for every relation and server.
- Linking.SkidLabelFirstAt, Linking.ExtractSkidRoundTrip, Uploader.SourceAnnotationNamesUpload, PushUpdates.LinkedSkidOfLinkedNeuron: the skid reads back only when the relation followed by a space does not spell out `skeleton id `. Otherwise `find_desyncs` would read the text after the relation's own label.
- Linking.LinkingAnnotationFiresAsRelation, Linking.TransformAnnotationsFireOwnKey, Linking.ElasticAnnotationsFireOwnKey, Linking.VolumeAnnotationsFire: these need a server whose escaped text contains none of the relation keys. A server name containing, say, `copy of` would fire that key as well.
- Connections.Truthy: a float is falsy only at 0.0. NaN, which is truthy in Python, is not modelled, since reals have none.
- Connections.NicknameTable.ConfigFileFor: lower-casing covers ASCII letters only. Python's `str.lower` also maps other Unicode letters, which the model leaves unchanged.

## Findings

| source | as written | input that shows it | evidently intended | confidence | as-written member | corrected member |
|---|---|---|---|---|---|---|
| pymaid_addons/manipulate_and_reupload_catmaid_neurons.py:284-287 | With two or more linked skeletons the code prints "Skipping upload" but does not `continue`. It leaves `skid_to_update` as None and falls through to `upload_neuron`, which uploads a new skeleton, already stripped of its linking annotations. | A source neuron whose linking annotation is carried by two target skeletons, with `fake=False` | Skip the upload, as the message says | not executed | Uploader.SeveralMatchesUploadUnlinkedAsWritten | Uploader.SeveralMatchesSkip |
| pymaid_addons/housekeeping.py:96-97 | The annotation attached to and removed from the dummy neuron is `remove_escapes(add_escapes(name))`, which drops every backslash of the original name. | The unused annotation `a\b`: the code attaches and removes `ab`, and never touches `a\b` | Attach and remove the annotation itself | not executed | Housekeeping.BackslashNamePurgesAnother | Housekeeping.PurgeUnusedAnnotations |
| pymaid_addons/manipulate_and_reupload_catmaid_neurons.py:1097 | `radius_prune_neurons_by_skid` passes `keep_larger_radii=True` whatever its caller asked for. | `keep_larger_radii=False` and threshold 500 on a neuron with a radius-600 node: the node is kept | Pass the caller's `keep_larger_radii` through | not executed | Transforms.KeepLargerIgnoredAsWritten | Transforms.RadiusPruneForUpload |
| pymaid_addons/linked_neuron_tools.py:69 | The `translation of` entry calls `translate_neurons_by_skid(skids, **kwargs)`, which requires a `translation` argument (manipulate_and_reupload_catmaid_neurons.py:525-526). The TypeError ends the push. When it comes from a pass after the first, it leaves the source project's id switched to the target's. | A skid whose only linking annotation is a `translation of` link carried by one target skeleton, no skip dates, and no `translation` keyword | Pass the translation through, so that the link is updated like the others | not executed | PushUpdates.TranslationPushRaisesAsWritten | PushUpdates.TranslationPushDispatches |
