# error: a verified model of the status taxonomy

This project models the `error` crate (`crates/error/src/lib.rs`) in Dafny.
The crate is a portable error taxonomy for service boundaries:

- `Status` has sixteen variants, one per gRPC status code. Each wraps a
  `StatusDetails`, which is a message plus an ordered list of `ErrorDetails`.
- `ErrorDetails` has one variant, which wraps an `ErrorInfo` (reason, domain
  and string metadata).
- `ValidationError` is separate and has one variant, `InvalidFormat`.

The model covers:

- each variant's SCREAMING_SNAKE_CASE token and the one-line rendering
  `"<TOKEN>: <message>"`;
- the four `new_*_from_error` helpers;
- the JSON shape that the serde attributes fix: the internal tags `code` and
  `type`, fields flattened beside the tag, and `error_details` / `metadata`
  left out when empty and read back as empty when absent;
- the conversion of a `Status` into a gRPC transport status.

Modules:

- `Wrappers`: `Option`, and a `Result` that works with `:-`.
- `JsonValue`: a JSON value as `serde_json::Value` holds one. An object is a
  map from keys to values, so object equality ignores key order, as it does
  for `serde_json::Value` with its default key-ordered map.
- `Error`: the data model, tokens, rendering and constructors.
- `Transport`: the code-preserving conversion to the transport status.
- `Wire`: the encoders, the decoders and their round trips.

The variant `ResourceExhaused` is kept with the source's spelling. So its
token, its display prefix and its `code` tag are `RESOURCE_EXHAUSED`. Yet the
transport conversion still sends it to the transport's resource-exhausted
code, whose gRPC name is `RESOURCE_EXHAUSTED`. The model follows the code.

A "displayable error" passed to the constructors is modelled by the string
it displays as.

## Model

| member | source | states |
|---|---|---|
| `Error.Token` | crates/error/src/lib.rs:33-88 | every status's token is one of the sixteen listed variant tokens, `RESOURCE_EXHAUSED` included |
| `Error.StatusTokensAreScreamingSnake` | crates/error/src/lib.rs:39 | every status token is non-empty and made only of upper-case letters and underscores |
| `Error.FromToken` | crates/error/src/lib.rs:34-38 | a tag selects a variant exactly when it is one of the sixteen tokens; the variant selected has that token and carries the given payload |
| `Error.TokenRoundTrip` | crates/error/src/lib.rs:34-39 | reading a status's own token back with its own payload rebuilds the status |
| `Error.TokenIgnoresDetails` | crates/error/src/lib.rs:40-88 | replacing the payload keeps the variant and its token |
| `Error.SameTokenSameVariant` | crates/error/src/lib.rs:37-40 | equal tokens mean the same variant: swapping the payloads turns one status into the other |
| `Error.TokenInjective` | crates/error/src/lib.rs:37-40 | two statuses share a token if and only if they are the same variant, so the tag identifies the variant uniquely |
| `Error.ValidationToken` | crates/error/src/lib.rs:205-213 | the validation error's token is SCREAMING_SNAKE_CASE (`INVALID_FORMAT`) |
| `Error.DisplayDetails` | crates/error/src/lib.rs:197-201 | a payload renders as exactly its message, with no code prefix |
| `Error.Display` | crates/error/src/lib.rs:41-87 | a status renders as its token, then `": "`, then its payload's message, and nothing else |
| `Error.DisplayValidation` | crates/error/src/lib.rs:213 | a validation error renders as `INVALID_FORMAT`, then `": "`, then its message |
| `Error.SplitDisplay` | crates/error/src/lib.rs:41 | inverse of the rendering: a line splits at its first ':' into a colon-free prefix and the text after `": "`, and joining them rebuilds the line |
| `Error.DisplaySplits` | crates/error/src/lib.rs:41-87 | every status's rendered line splits back into exactly its token and its message, even when the message contains colons |
| `Error.DisplayDeterminesCodeAndMessage` | crates/error/src/lib.rs:41-87 | two statuses render alike if and only if they are the same variant with the same message |
| `Error.DisplayValidationSplits` | crates/error/src/lib.rs:213 | a rendered validation error splits back into `INVALID_FORMAT` and its message |
| `Error.NewErrorInfo` | crates/error/src/lib.rs:15-31 | `ErrorInfo::new(reason, domain)` keeps both strings unchecked and starts with empty metadata |
| `Error.StatusDetailsFromError` | crates/error/src/lib.rs:185-195 | the payload built from an error renders as that error's text and has no details |
| `Error.NewFromError` | crates/error/src/lib.rs:91-97 | applies the given variant constructor to the payload `(error text, no details)` |
| `Error.NewFailedPreconditionFromError` | crates/error/src/lib.rs:99-104 | yields FailedPrecondition with message = the error text and no details, rendering `FAILED_PRECONDITION: <text>` |
| `Error.NewInvalidArgumentFromError` | crates/error/src/lib.rs:106-111 | yields InvalidArgument with message = the error text and no details, rendering `INVALID_ARGUMENT: <text>` |
| `Error.NewInternalFromError` | crates/error/src/lib.rs:113-118 | yields Internal with message = the error text and no details, rendering `INTERNAL: <text>` |
| `Error.NewUnknownFromError` | crates/error/src/lib.rs:120-125 | yields Unknown with message = the error text and no details, rendering `UNKNOWN: <text>` |
| `Error.SampleStatus` | crates/error/src/lib.rs:228-234 | the unit tests' status is an Unknown with exactly one detail |
| `Error.SampleStatusMessage` | crates/error/src/lib.rs:226-237 | that status renders as `UNKNOWN: Unsure about that` |
| `Error.ValidationErrorMessage` | crates/error/src/lib.rs:263-267 | `InvalidFormat("did not match regex")` renders as `INVALID_FORMAT: did not match regex` |
| `Error.StatusFromErrorMessage` | crates/error/src/lib.rs:280-285 | `new_internal_from_error("bug")` renders as `INTERNAL: bug` |
| `Transport.FromStatus` | crates/error/src/lib.rs:128-170 | the conversion is total, carries the message unchanged and never yields the OK code |
| `Transport.FromStatusKeepsCodeName` | crates/error/src/lib.rs:131-168 | every variant goes to the transport code named by its own token; the exception is `ResourceExhaused`, which goes to RESOURCE_EXHAUSTED |
| `Transport.MisspeltTokenIsNoGrpcName` | crates/error/src/lib.rs:150-151 | a transport code's name equals a status token if and only if the status is not `ResourceExhaused` and the code is the one it converts to |
| `Transport.FromStatusCodeIgnoresDetails` | crates/error/src/lib.rs:131-168 | the transport code depends on the variant alone |
| `Transport.FromStatusCodeInjective` | crates/error/src/lib.rs:131-168 | two statuses get the same transport code if and only if they are the same variant |
| `Transport.FromStatusDropsDetails` | crates/error/src/lib.rs:131-168 | statuses that differ only in their error details convert to equal transport statuses |
| `Transport.DetailsAreLost` | crates/error/src/lib.rs:163 | a concrete pair of distinct Internal statuses converts to the same transport status |
| `Wire.EncodeMetadata` | crates/error/src/lib.rs:26-30 | metadata becomes an object with the same keys, each holding its string value |
| `Wire.ErrorInfoFields` | crates/error/src/lib.rs:15-31 | an ErrorInfo's fields are `reason` and `domain`, plus `metadata` exactly when the map is non-empty |
| `Wire.EncodeErrorInfo` | crates/error/src/lib.rs:15-31 | a standalone ErrorInfo is an object of exactly those fields |
| `Wire.EncodeErrorDetails` | crates/error/src/lib.rs:5-13 | an ErrorDetails is the ErrorInfo's fields flattened beside `type` = `ERROR_INFO`, with no other keys |
| `Wire.EncodeErrorDetailsList` | crates/error/src/lib.rs:177-182 | the detail list is encoded element by element, with its length and order kept |
| `Wire.StatusDetailsFields` | crates/error/src/lib.rs:172-183 | a payload's fields are `message`, plus `error_details` exactly when the list is non-empty |
| `Wire.EncodeStatus` | crates/error/src/lib.rs:33-40 | a status is an object with exactly `code` = its token, `message`, and `error_details` (in order) only when the list is non-empty |
| `Wire.EncodeValidationError` | crates/error/src/lib.rs:205-218 | a validation error is exactly `{"type": "INVALID_FORMAT", "message": message}` |
| `Wire.StringField` | crates/error/src/lib.rs:174-176 | a required string field succeeds exactly when the key is present with a string value; an absent key is a missing-field error |
| `Wire.DecodeMetadata` | crates/error/src/lib.rs:26-30 | decoded metadata has the object's keys, each mapped to the string it held |
| `Wire.DecodeErrorInfoFields` | crates/error/src/lib.rs:15-31 | succeeds exactly when `reason` and `domain` are strings and a present `metadata` decodes; the result holds those strings and that metadata, or the empty map when `metadata` is absent |
| `Wire.DecodeErrorInfo` | crates/error/src/lib.rs:15-31 | a non-object is rejected; an object decodes as its fields do |
| `Wire.DecodeErrorDetails` | crates/error/src/lib.rs:5-13 | rejects a non-object, a missing `type` and an unknown `type`; with `type` = `ERROR_INFO` it succeeds exactly when the rest of the object decodes as an ErrorInfo, and holds that ErrorInfo |
| `Wire.DecodeErrorDetailsList` | crates/error/src/lib.rs:177-182 | succeeds exactly when every item decodes; the result has the items' length, and element i is what item i decodes to |
| `Wire.DecodeStatusDetailsFields` | crates/error/src/lib.rs:172-183 | succeeds exactly when `message` is a string and `error_details` is absent or an array whose items all decode; the decoded list becomes the details, and an absent one reads as the empty list |
| `Wire.DecodeStatus` | crates/error/src/lib.rs:33-40 | rejects a non-object, a missing `code` and a `code` naming no variant; with a known `code` it succeeds exactly when the rest decodes as a payload, giving the variant that `code` names with that payload |
| `Wire.DecodeValidationError` | crates/error/src/lib.rs:205-218 | rejects a non-object, a missing `type` and any other tag than `INVALID_FORMAT`; with that tag it succeeds exactly when `message` is a string, and holds that message |
| `Wire.MetadataRoundTrip` | crates/error/src/lib.rs:26-30 | decoding encoded metadata gives the same map |
| `Wire.ErrorInfoRoundTrip` | crates/error/src/lib.rs:15-31 | decoding an encoded ErrorInfo gives it back, including when empty metadata was left out |
| `Wire.ErrorInfoFieldsRoundTrip` | crates/error/src/lib.rs:5-31 | an ErrorInfo's fields are read back from any object that holds them beside other keys, so flattening loses nothing |
| `Wire.ErrorDetailsRoundTrip` | crates/error/src/lib.rs:5-13 | decoding an encoded ErrorDetails gives it back |
| `Wire.ErrorDetailsListRoundTrip` | crates/error/src/lib.rs:177-182 | decoding an encoded detail list gives back the same details in the same order |
| `Wire.StatusDetailsFieldsRoundTrip` | crates/error/src/lib.rs:172-183 | a payload is read back from any object that holds its `message` and, when non-empty, its encoded `error_details`, whatever other keys it has |
| `Wire.StatusRoundTrip` | crates/error/src/lib.rs:33-40 | decoding an encoded status gives it back, for all sixteen variants, with or without details or metadata |
| `Wire.ValidationErrorRoundTrip` | crates/error/src/lib.rs:205-218 | decoding an encoded validation error gives it back |
| `Wire.DecodeStatusIgnoresUnknownKeys` | crates/error/src/lib.rs:33-40 | adding any key other than `code`, `message` and `error_details` does not change how a status decodes |
| `Wire.EmptyErrorDetailsReadAsAbsent` | crates/error/src/lib.rs:178-182 | an explicit empty `error_details` array decodes exactly as an absent key does |
| `Wire.EmptyMetadataReadAsAbsent` | crates/error/src/lib.rs:26-30 | an explicit empty `metadata` object decodes exactly as an absent key does |
| `Wire.ErrorInfoDecodedIsCanonical` | crates/error/src/lib.rs:15-31 | an ErrorInfo read from any object re-encodes to entries of that object, and a `metadata` entry the re-encoding omits was the empty object |
| `Wire.GrpcSpellingIsRejected` | crates/error/src/lib.rs:66 | the tag `RESOURCE_EXHAUSTED` is an unknown variant, while `RESOURCE_EXHAUSED` decodes to `ResourceExhaused` |
| `Wire.ValidationErrorDecodedIsCanonical` | crates/error/src/lib.rs:205-218 | a validation error read from an object encodes back to exactly that object's `type` and `message` entries |
| `Wire.SampleStatusSerialization` | crates/error/src/lib.rs:239-261 | the unit tests' status serialises to exactly the expected object, with `metadata` absent |
| `Wire.ExtraKeysStillDecode` | crates/error/src/lib.rs:172-183 | a payload whose detail carries an unknown key, and a validation error with an extra key, both decode |
| `Wire.ValidationErrorSerialization` | crates/error/src/lib.rs:269-278 | `InvalidFormat("did not match regex")` serialises to exactly `{"type":"INVALID_FORMAT","message":"did not match regex"}` |

## Left out

- The serde and serde_json machinery itself. The encoders and decoders are written by hand to match the attributes. They work on a JSON value, not on JSON text. The order of keys in printed JSON is not modelled.
- Decoding a struct or a tagged enum from a JSON array, which serde also accepts, is not modelled. A tag that is not a string is rejected, although serde's derived variant identifiers may also accept other forms.
- When several fields of an input are wrong, the model picks one error in a fixed order. serde reports the first one it meets in input order. The text of serde's error messages is not modelled either.
- An object with a duplicated key cannot be written in the model, because an object is a map.
- JSON numbers are integers here. The error types never write a number.
- Error.Token: the sixteen tokens are written out one by one, as the strum derive produces them. That each is the SCREAMING_SNAKE_CASE form of its Rust identifier is stated by the table, not derived by a case conversion. The model proves only the character set and injectivity.
- The gRPC canonical code names in `Transport` come from the gRPC status-code set, not from this crate. They serve only to say which code each variant goes to.
- The transport status is reduced to a code and a message. Its binary details, metadata and source error are not modelled. The tonic types are not part of this model.
- `fmt::Formatter` and the generic `T: fmt::Display` bound. A displayable error is the string it renders as.
- The `StatusResult<T>` alias has no behaviour.
- There is no validation of `reason`, `domain` or metadata keys. The source leaves it unimplemented, so the model accepts any strings.
- Equality: the crate derives `PartialEq` only for `ErrorInfo`. The round-trip lemmas use Dafny's structural equality for every type.
- The `Debug` and `Clone` derives have no behaviour to model.
