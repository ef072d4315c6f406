# Boundary auth-method resource: a verified model

This project models the reconciliation core of the Terraform provider's
`boundary_auth_method` resource (`internal/provider/resource_auth_method.go`).
It covers:

- the create encoder, which turns the configured attributes of a password or
  OIDC auth method into the client options of a create request;
- the decoder, which writes a response of the remote service back into the
  resource;
- the update differ, which compares the configuration with the attributes
  recorded before the update and sends only what changed;
- read's handling of "not found";
- delete's error pass-through.

The model is imperative where the Go code is:

- the resource (`ResourceState.ResourceData`) is a class with its id, its
  recorded attributes (`prior`) and its current attributes (`state`);
- the remote client (`Remote.Client`) is a class that records every call it
  makes and takes its answers from a queue;
- each Go operation is a method with the same straight-line blocks, in the
  same order;
- the loops are `while` loops: the list-trimming loop (`Text.TrimAll`, used by
  `AuthMethod.SetTrimmed` and `AuthMethod.OptionFor`) and the decoder's loop
  over the optional OIDC strings (`AuthMethod.SetSometimes`).

Each method is proved against a function on values, and the properties are
proved about those functions:

- `Decoding.Decode` for the decoder;
- `Encoding.CreateOptions` for the create options;
- `Diffing.UpdateOptions` for the update options;
- `AuthMethod.CreatePlan`, `CreateOutcome`, `ReadOutcome` and `UpdatePlan`
  for the decisions an operation makes.

Values are typed and already converted from the wire format: strings, integers,
booleans and string lists. A Go type assertion that would panic becomes a
precondition:

- `Values.WellKinded` for the configuration;
- `Decoding.DecodeDemands` for a response.

The host's `d.Set` refuses a value of the wrong kind for its key, and the model
keeps every such refusal. In the OIDC block the code ignores these refusals,
and so does the model.

Modules, one per file:

- `Values` (`values.dfy`): keys, values, kinds.
- `Text` (`text.dfy`): Go's `strings.TrimSpace` and its element-wise use.
- `Options` (`options.dfy`): the client's option constructors.
- `ResourceState` (`resource_data.dfy`): the host's resource data.
- `Decoding` (`decode.dfy`).
- `Encoding` (`encode.dfy`).
- `Diffing` (`diff.dfy`).
- `Remote` (`remote.dfy`).
- `AuthMethod` (`resource_auth_method.dfy`): the operations.

## Model

| member | source | states |
|---|---|---|
| Values.Lookup | internal/provider/resource_auth_method.go:286 | a lookup finds a value exactly when the key is set (`GetOk`'s `ok`), and then it is the stored value |
| Values.Put | internal/provider/resource_auth_method.go:181 | after writing an optional value under a key, reading the key gives that value (a missing value clears the key) and every other key keeps its value |
| Values.PutKeepsWellKinded | internal/provider/resource_auth_method.go:181-192 | an accepted write keeps every stored value of its key's kind |
| ResourceState.ResourceData.GetOk | internal/provider/resource_auth_method.go:286 | `d.GetOk`: a value exactly when the key is set, and then the current value |
| ResourceState.ResourceData.HasChange | internal/provider/resource_auth_method.go:424 | `d.HasChange`: the key's current value differs from the recorded one (no contract; it is the predicate `Diffing.Changed` of the recorded and current attributes, which `FieldDiff` is stated with, and `AuthMethod.FieldOptions` is proved against it) |
| ResourceState.ResourceData.Set | internal/provider/resource_auth_method.go:181-192 | a value of the key's kind (or a missing one) is written and no error is returned; otherwise the write is refused with an error naming the key and nothing changes |
| ResourceState.ResourceData.SetId | internal/provider/resource_auth_method.go:278 | the id becomes the given string |
| ResourceState.ResourceData.constructor | internal/provider/resource_auth_method.go:180 | a resource with the given id, recorded and current attributes |
| Remote.Client.Send | internal/provider/resource_auth_method.go:380 | one call is appended to the log and the next queued answer is returned and consumed |
| Remote.Client.constructor | internal/provider/resource_auth_method.go:378 | a client with an empty log and the given answers |
| Text.TrimSpace | internal/provider/resource_auth_method.go:227 | Go's `strings.TrimSpace`: never longer than its input; what it is exactly is stated by `TrimSpaceCut` and `CutIsTrim` |
| Text.TrimSpaceCut | internal/provider/resource_auth_method.go:227 | the trimmed form is a contiguous part of the string, everything cut off is white space, and it neither starts nor ends with white space |
| Text.CutIsTrim | internal/provider/resource_auth_method.go:227 | any unpadded result of cutting white space off both ends is the trimmed form (uniqueness) |
| Text.TrimSpaceUnpadded | internal/provider/resource_auth_method.go:227 | a string without surrounding white space is unchanged by trimming |
| Text.TrimSpaceIgnoresLeftPadding | internal/provider/resource_auth_method.go:222-229 | leading white space does not change the trimmed form |
| Text.TrimSpaceIgnoresRightPadding | internal/provider/resource_auth_method.go:222-229 | trailing white space (such as the extra newline the service may add) does not change the trimmed form |
| Text.TrimSpaceIgnoresPadding | internal/provider/resource_auth_method.go:222-229 | white space on both sides does not change the trimmed form |
| Text.TrimSpaceIdempotent | internal/provider/resource_auth_method.go:227 | trimming twice is trimming once |
| Text.TrimEachAt | internal/provider/resource_auth_method.go:225-228 | element `i` of the trimmed list is element `i` of the input, trimmed |
| Text.TrimEachIdempotent | internal/provider/resource_auth_method.go:225-235 | trimming a trimmed list changes nothing |
| Text.TrimAll | internal/provider/resource_auth_method.go:330-333 | the loop builds the list of trimmed elements, same length and order |
| Options.ToUint32 | internal/provider/resource_auth_method.go:301 | Go's `uint32(n)`: `n` itself when it fits, otherwise congruent to `n` modulo 2^32 |
| Options.SetOption | internal/provider/resource_auth_method.go:314-353 | the `With…` option for an attribute and the value it is sent with; it is never a reset nor the versioning option (which attribute it sets: `TargetOfOptions`; which value it carries: `SetOptionCarries`) |
| Options.SetOptionCarries | internal/provider/resource_auth_method.go:285-353 | every setting option carries the value it was made with (its `Payload`), an integer converted with `uint32` |
| Options.ResetOption | internal/provider/resource_auth_method.go:425 | the `Default…` option of an attribute with a server default is a reset (which attribute it resets: `TargetOfOptions`) |
| Options.TargetOfOptions | internal/provider/resource_auth_method.go:490-494 | every set or reset option addresses its own attribute, except the HMAC, which is sent as the client secret |
| Options.Sent | internal/provider/resource_auth_method.go:329-336 | the sent value has its key's kind exactly when the configured one does |
| Options.Outgoing | internal/provider/resource_auth_method.go:329-336 | the outgoing configuration has the same keys and stays well kinded |
| Options.OutgoingAt | internal/provider/resource_auth_method.go:329-336 | every configured attribute is sent with its `Sent` value |
| Options.SentValues | internal/provider/resource_auth_method.go:329-352 | the certificates are sent trimmed element by element in order, same length; every other attribute (strings, integers, the flag, audiences, algorithms) is sent as configured |
| Decoding.TopWrites | internal/provider/resource_auth_method.go:181-192 | the four top-level writes succeed exactly when the host accepts all four, and then name, description, scope id and type are the response's; otherwise the attribute named is the first refused one, in the order name, description, scope id, type |
| Decoding.TopWritesStop | internal/provider/resource_auth_method.go:181-192 | after a refused top-level write, the attributes written before it carry the response's values, and it and those after it keep their previous ones |
| Decoding.TopWritesFrame | internal/provider/resource_auth_method.go:181-192 | the top-level writes touch no other attribute |
| Decoding.FirstRefusedUnique | internal/provider/resource_auth_method.go:181-192 | at most one attribute is the first refused top-level write, so the error names a single attribute |
| Decoding.SometimesOutside | internal/provider/resource_auth_method.go:263-267 | a key the loop does not visit keeps its value |
| Decoding.SometimesAt | internal/provider/resource_auth_method.go:263-267 | a visited key is written when present and accepted, and keeps its value otherwise |
| Decoding.OidcWritesAlways | internal/provider/resource_auth_method.go:216-255 | the OIDC block records state, issuer, client id, HMAC, max age and the two trimmed lists |
| Decoding.OidcWritesOptional | internal/provider/resource_auth_method.go:257-271 | the API URL prefix, callback URL, disable flag and signing algorithms are written only when present (and accepted), otherwise kept |
| Decoding.OidcWritesFrame | internal/provider/resource_auth_method.go:212-272 | the OIDC block touches nothing outside its attributes |
| Decoding.Decode | internal/provider/resource_auth_method.go:180-280 | no error exactly when the host accepts the top-level writes and the type is known; a refused write is reported for the first refused attribute (`FirstRefused`), an unknown type as the invalid-type error; the id is set, to the response's, only on success |
| Decoding.VariantWritesFrame | internal/provider/resource_auth_method.go:194-272 | a variant's block writes nothing outside that variant's attributes |
| Decoding.DecodeTop | internal/provider/resource_auth_method.go:181-192 | once the top-level writes are accepted, name, description, scope id and type end up as in the response, whatever follows |
| Decoding.VariantWritesKeepTop | internal/provider/resource_auth_method.go:194-272 | a variant's block leaves name, description, scope id and type alone |
| Decoding.DecodePassword | internal/provider/resource_auth_method.go:194-210 | a password response with attributes records both minimum lengths |
| Decoding.DecodeOidc | internal/provider/resource_auth_method.go:212-255 | an OIDC response with attributes records the always-present attributes, with the certificates and audiences trimmed element by element |
| Decoding.DecodeOidcOptional | internal/provider/resource_auth_method.go:257-271 | an optional OIDC attribute is written only when the response carries it and the host accepts it, and otherwise keeps its old value |
| Decoding.DecodeKeepsDisableFlag | internal/provider/resource_auth_method.go:258-266 | decoding never changes the boolean disable flag, because the string the code writes is refused and the refusal ignored |
| Decoding.DecodeFrame | internal/provider/resource_auth_method.go:194-276 | decoding writes nothing beyond the top-level attributes and its own variant's block; nothing at all after a refused write or an unknown type |
| Decoding.StoredKeepsWellKinded | internal/provider/resource_auth_method.go:217-270 | a write whose refusal is ignored keeps the state well kinded |
| Decoding.SometimesKeepsWellKinded | internal/provider/resource_auth_method.go:263-267 | the loop over the optional strings keeps the state well kinded |
| Decoding.TopWritesKeepWellKinded | internal/provider/resource_auth_method.go:181-192 | the top-level writes keep the state well kinded |
| Decoding.OidcAlwaysKeepsWellKinded | internal/provider/resource_auth_method.go:216-255 | the always-present OIDC writes keep the state well kinded |
| Decoding.OidcWritesKeepWellKinded | internal/provider/resource_auth_method.go:213-271 | the OIDC block keeps the state well kinded |
| Decoding.VariantWritesKeepWellKinded | internal/provider/resource_auth_method.go:194-272 | either variant's block keeps the state well kinded |
| Decoding.DecodeKeepsWellKinded | internal/provider/resource_auth_method.go:180-280 | decoding keeps every recorded value of its key's kind, so the next operation can read the state |
| Encoding.Present | internal/provider/resource_auth_method.go:292-369 | the present keys are among the listed keys and are set |
| Encoding.Targets | internal/provider/resource_auth_method.go:292-369 | one target per option, the attribute it addresses |
| Encoding.CreateOptions | internal/provider/resource_auth_method.go:292-369 | the reference for the create options (no contract of its own); characterised by `CreateOptionsShape`, `CreateOptionsExactlyPresent` and `CreateOptionsOrder` |
| Encoding.PresentMembers | internal/provider/resource_auth_method.go:292-369 | a key is kept exactly when it is listed and set |
| Encoding.PresentNoDuplicates | internal/provider/resource_auth_method.go:292-369 | keeping keys of a list without repeats gives no repeats |
| Encoding.EmitAllShape | internal/provider/resource_auth_method.go:292-369 | option `i` sets the `i`-th present key to its value |
| Encoding.EmitAllAppend | internal/provider/resource_auth_method.go:293-369 | the options of two lists of keys are those of the first list followed by those of the second |
| Encoding.CreateKeysFacts | internal/provider/resource_auth_method.go:292-369 | the create keys are settable, without repeats, and do not include the HMAC |
| Encoding.CreateOptionsShape | internal/provider/resource_auth_method.go:292-369 | one option per configured attribute, in the resource's order, each setting that attribute to the value it is sent with (certificates trimmed) |
| Encoding.CreateOptionsExactlyPresent | internal/provider/resource_auth_method.go:292-369 | an attribute gets an option exactly when it is on the variant's or the common list and configured, never twice, and no versioning option is added |
| Encoding.CreateOptionsOrder | internal/provider/resource_auth_method.go:292-369 | the variant's options come first, the name and description after them |
| Diffing.UpdateKeysFacts | internal/provider/resource_auth_method.go:424-512 | the compared keys are settable and without repeats |
| Diffing.FieldDiff | internal/provider/resource_auth_method.go:424-430 | one attribute's update options (no contract of its own); characterised by `UpdateSingleChange`, `DiffAllEmpty`, `DiffAllChanged` and `DiffAllResets` |
| Diffing.UpdateOptions | internal/provider/resource_auth_method.go:422-512 | the reference for the update options before versioning (no contract of its own); characterised by `UpdateOptionsEmpty`, `UpdateOptionsUnchanged`, `UpdateOptionsComplete`, `UpdateSingleChange` and `UpdateHmacSendsClientSecret`, and through `DiffAll` by `DiffAllPrefix`, `DiffAllBlock`, `DiffAllComplete`, `DiffAllChanged` and `DiffAllResets` |
| Diffing.DiffAllEmpty | internal/provider/resource_auth_method.go:424-512 | no option exactly when every attribute is silent: unchanged, or changed to unset and without a default |
| Diffing.DiffAllSingle | internal/provider/resource_auth_method.go:424-512 | when only one attribute may have changed, the options are that attribute's alone |
| Diffing.DiffAllPrefix | internal/provider/resource_auth_method.go:424-512 | the options of the first keys begin the options of all keys: a later block only appends |
| Diffing.DiffAllBlock | internal/provider/resource_auth_method.go:424-512 | every attribute's whole block follows right after the blocks of the attributes before it, whatever else changed |
| Diffing.DiffAllComplete | internal/provider/resource_auth_method.go:424-512 | a changed attribute's reset (when it has a default) and its set option with the `Sent` value (when configured) are among the options, whatever else changed |
| Diffing.DiffAllChanged | internal/provider/resource_auth_method.go:424-512 | every option belongs to an attribute that changed |
| Diffing.DiffAllResets | internal/provider/resource_auth_method.go:424-458 | only changed attributes with a default are reset, each by its own reset |
| Diffing.UpdateOptionsEmpty | internal/provider/resource_auth_method.go:518 | an update has no option exactly when every compared attribute is silent |
| Diffing.UpdateOptionsUnchanged | internal/provider/resource_auth_method.go:424-512 | a configuration equal to the recorded attributes yields no option |
| Diffing.UpdateOptionsComplete | internal/provider/resource_auth_method.go:424-512 | every compared attribute that changed is sent, however many changed: its reset when it has a default, and its set option with the `Sent` value when configured |
| Diffing.UpdateSingleChange | internal/provider/resource_auth_method.go:424-512 | a single changed attribute yields its reset (name, description, password lengths) followed by its set option when configured |
| Diffing.UpdateHmacSendsClientSecret | internal/provider/resource_auth_method.go:490-494 | a changed HMAC alone is sent as the client secret |
| AuthMethod.SetTop | internal/provider/resource_auth_method.go:181-192 | the four top-level writes stop at the first refusal and leave the state `TopWrites` gives |
| AuthMethod.SetPassword | internal/provider/resource_auth_method.go:196-209 | records both lengths |
| AuthMethod.SetTrimmed | internal/provider/resource_auth_method.go:225-235 | records the list under the key with every element trimmed |
| AuthMethod.SetOidcAlways | internal/provider/resource_auth_method.go:216-255 | records the always-present OIDC attributes with trimmed lists |
| AuthMethod.SetSometimes | internal/provider/resource_auth_method.go:257-267 | the loop over the optional strings leaves the state `Sometimes` gives |
| AuthMethod.SetOidc | internal/provider/resource_auth_method.go:213-271 | the OIDC block leaves the state `OidcWrites` gives |
| AuthMethod.SetFromResponse | internal/provider/resource_auth_method.go:180-280 | the attributes, id and error afterwards are those of `Decode`, and a well-kinded state stays well kinded |
| AuthMethod.DecodeOutcome | internal/provider/resource_auth_method.go:388-390 | no diagnostic exactly when decoding succeeds, and otherwise the diagnostic carries the decoding error (the first refused attribute, or the invalid type); the id is the response's only on success; the attributes are the decoded ones; a well-kinded state stays well kinded |
| AuthMethod.CreatePlan | internal/provider/resource_auth_method.go:285-380 | create never skips; it refuses, before any call, exactly when the type or scope id is missing or the type is unknown, in that order of checks with those errors; otherwise it sends one create call with the configured type and scope id, carrying `CreateOptions` of the configuration |
| AuthMethod.CreateOutcome | internal/provider/resource_auth_method.go:380-390 | a refusal keeps the resource as it was; once the call is sent, a remote error is reported as `ErrorCreating` of that error, a missing result as `NilAfterCreate`, and an answer gives no diagnostic exactly when it decodes; success needs a sent call, an answer and a successful decode, and only then does the id change to the response's; an error or a missing result keeps the attributes; after an answer to a sent call the attributes are the decoded ones; the attributes afterwards are well kinded |
| AuthMethod.OptionFor | internal/provider/resource_auth_method.go:329-336 | the option for a configured value is `SetOption` of its `Sent` value (the certificate loop) |
| AuthMethod.PresentOption | internal/provider/resource_auth_method.go:314-316 | one block of create: the option when the attribute is set, nothing otherwise |
| AuthMethod.AppendIfPresent | internal/provider/resource_auth_method.go:314-316 | appending one block keeps the options equal to those of the blocks handled so far |
| AuthMethod.BuildCreateOptions | internal/provider/resource_auth_method.go:292-369 | the options built are `CreateOptions` of the configuration |
| AuthMethod.BuildVariantOptions | internal/provider/resource_auth_method.go:293-353 | the variant's options, for the variant's keys |
| AuthMethod.BuildOidcOptions | internal/provider/resource_auth_method.go:313-353 | the OIDC options, for the OIDC create keys |
| AuthMethod.AppendIfPresents | internal/provider/resource_auth_method.go:314-353 | three consecutive blocks extend the options over three more keys (a grouping for proof size only) |
| AuthMethod.Create | internal/provider/resource_auth_method.go:282-393 | the calls made and the resulting id, attributes and diagnostic are those of `CreatePlan` and `CreateOutcome`: no call on a refusal, one create call otherwise, and so success exactly when a decodable answer decodes |
| AuthMethod.ReadOutcome | internal/provider/resource_auth_method.go:395-416 | a not-found error clears the id and reports nothing; any other error is reported as `ErrorReading` of that error, and a missing result as `NilAfterRead`, with the id and attributes kept; a result is decoded: the attributes are the decoded ones, and the id changes only on success; a well-kinded state stays well kinded |
| AuthMethod.Read | internal/provider/resource_auth_method.go:395-416 | one read call by the id; the outcome is `ReadOutcome` |
| AuthMethod.UpdateType | internal/provider/resource_auth_method.go:440 | `d.Get(TypeKey).(string)`: the configured type when it is a string, otherwise the empty string, which `UpdatePlan` refuses as an unknown type |
| AuthMethod.UpdatePlan | internal/provider/resource_auth_method.go:418-523 | refuses with the invalid-type error exactly when the type is unknown; makes no call exactly when there are no options; otherwise one update call for the id at version 0 whose options are the differences followed by automatic versioning |
| AuthMethod.UpdateInSyncMakesNoCall | internal/provider/resource_auth_method.go:418-523 | a configuration equal to the recorded attributes makes no update call |
| AuthMethod.UpdateCallSendsOnlyChanges | internal/provider/resource_auth_method.go:424-512 | every option of an update call but the last belongs to a changed attribute, and resets only go to changed attributes with a default |
| AuthMethod.UpdateDiag | internal/provider/resource_auth_method.go:518-523 | what update reports: the refusal, nothing when no call is made, and the service's error when the call fails |
| AuthMethod.FieldOptions | internal/provider/resource_auth_method.go:424-430 | one block of update yields `FieldDiff` (reset if it has a default, then the set option when configured; nothing if unchanged) |
| AuthMethod.AppendDiff | internal/provider/resource_auth_method.go:424-512 | appending one block keeps the options equal to those of the blocks handled so far |
| AuthMethod.AppendDiffs | internal/provider/resource_auth_method.go:460-507 | three consecutive blocks extend the options over three more keys (a grouping for proof size only) |
| AuthMethod.BuildOidcDiff | internal/provider/resource_auth_method.go:459-512 | the OIDC blocks, in the resource's order |
| AuthMethod.BuildVariantDiff | internal/provider/resource_auth_method.go:440-512 | after the name and description blocks, the options are `UpdateOptions` |
| AuthMethod.Update | internal/provider/resource_auth_method.go:418-523 | the calls made and the diagnostic are those of `UpdatePlan`: nothing is sent for an unknown type or no change, otherwise one update call whose failure is reported |
| AuthMethod.Delete | internal/provider/resource_auth_method.go:549-559 | one delete call by the id; any error, "not found" included, is reported |

## Left out

- The schema literal (`Schema:` of the resource) is not modelled. The kinds of
  the keys (`Values.KindOf`) follow how the code reads and writes them. The
  certificates, audiences and algorithms are lists, the disable flag is a
  boolean, and the lengths and the max age are integers.
- The host SDK is abstract: `GetOk` is key membership and `HasChange` compares
  with the recorded attributes. `GetOk`'s treatment of zero values (an empty
  string or `0` reported as unset) is not modelled.
- Conversions: `json.Number` conversion of integers is not modelled, and the
  values are taken as already converted. Go type assertions that would panic
  are preconditions (`WellKinded`, `DecodeDemands`).
- Update's `[]string` assertions on list attributes (`resource_auth_method.go`
  lines 482, 497 and 503) are modelled as reading the list. The SDK hands lists
  over as `[]interface{}`, as create's loops assume, so these assertions may
  panic in the real provider. The model takes the list as given.
- The HTTP client, the meta cast, diagnostic formatting, the `Printf` at line
  237 and the commented-out block at lines 240-251 are not modelled. The client
  is a call log with a queue of answers, and the queue having an answer is a
  precondition.
- The read handler's `api.AsServerError` is modelled as an error that always
  carries a status. Non-API errors are not distinguished.
- `errorInvalidAuthMethodType` is not defined in this file. It is modelled as
  its own diagnostic.
- The update handler's tail after the update call (lines 525-544) does not
  compile. Update ends with the call and its error.
- Create checks that the type is known before building any option. In the Go
  code the unknown-type default comes after the other switch cases, but since
  building options has no side effects the two orders are equivalent.
- The update plan checks the type before computing the options. The update
  method builds the name and description options first, as the code does. The
  result is the same.
- The decoder's write of the max age as `int64` and of the signing algorithms
  as `[]interface{}` is taken as accepted by the host.
- The code neither rejects changes to immutable attributes nor treats "not
  found" on delete as success, so the model does neither.
- Go's `strings.TrimSpace` works on UTF-8 bytes and passes invalid byte
  sequences through unchanged. Strings here are sequences of characters, so
  invalid UTF-8 cannot be represented and that behaviour is not modelled.
- The keys declared but never used (discovery URL and similar) and the test
  files are not modelled.
