# raiden REST API encoding layer, in Dafny

This project models `raiden/api/v1/encoding.py`, the codec and schema layer of
raiden's JSON REST API (version 1). It has three parts.

- **Hex address codec** (`HexCodec`, `AddressCodec`). `AddressField` decodes body
  fields and `HexAddressConverter` decodes URL path segments. Both check three
  things in a fixed order: the text starts with `0x`, the rest is valid hex
  under Python 2's `str.decode('hex')`, and the result is exactly 20 bytes.
  `AddressField` labels these failures `missing_prefix`, `invalid_data` and
  `invalid_size` (`raiden/api/v1/encoding.py:63-82`). `HexAddressConverter`
  raises an unlabelled `ValidationError` for each of them
  (`raiden/api/v1/encoding.py:45-54`). Encoding is pyethapp's
  `address_encoder`: `0x` followed by lower-case hex.
- **Schema engine** (`SchemaEngine`). Each schema is a declared table of
  fields. A field has a kind, a required flag, a `missing` default, a dump
  `default` and an optional `OneOf` set. The table is bound to an explicit
  construction target, which stands in for `Meta.decoding_class`. `Load` runs
  every declared field with `strict = True`: it returns either the complete
  name→value map or the errors of the failing fields. `LoadObject` then applies
  `make_object` (`decoding_class(**data)`). `Dump` writes an object back out.
- **List envelope** (`ListSchemas`). `BaseListSchema` wraps the incoming list
  as `{'data': list}`, loads each element with the nested schema, and builds
  the collection from `data['data']`. On dump it unwraps `data['data']`.
- **Schema registry** (`Registry`). The concrete schemas are functions of a
  `Settings` value. `Settings` holds the `raiden.settings` defaults and the
  channel-state constants, which are defined outside this file.

Behaviour worth noting:

- marshmallow 2 in strict mode gathers the errors of every failing field into
  one error and raises once. So `Load` fails with a map from each failing field
  to its error, not with only the first error.
- Nothing in the file rejects undeclared keys. `strict = True` only turns
  errors into exceptions. Undeclared keys are ignored: payloads that agree
  on the declared names load alike (`SchemaEngine.UndeclaredIgnored`).
- `ChannelSchema` declares none of its fields required.
- The channel states are the `CHANNEL_STATE_*` constants, whatever their values.

## Model

| member | source | states |
|---|---|---|
| HexCodec.Unhexlify | raiden/api/v1/encoding.py:76-79 | the hex decode succeeds exactly on even-length text made only of hex digits in either case, and yields half as many bytes |
| HexCodec.UnhexlifyBytes | raiden/api/v1/encoding.py:76-79 | byte i of decoded hex text is 16 times the value of digit 2i plus the value of digit 2i+1 (high nibble first) |
| HexCodec.DecodePairs | raiden/api/v1/encoding.py:77 | decoding pairs of digits succeeds exactly when every character is a hex digit, two characters per byte |
| HexCodec.UnhexlifyHexOf | raiden/api/v1/encoding.py:69-70 | hex-decoding the lower-case hex text of any byte string gives back that byte string |
| HexCodec.HexOfDecodePairs | raiden/api/v1/encoding.py:76-79 | re-encoding decoded hex text gives the original text with its letters lower-cased |
| HexCodec.AddressEncoder | raiden/api/v1/encoding.py:69-70 | `address_encoder` output is `0x` and then 2 lower-case hex digits per byte, and the hex part decodes back to the input bytes |
| AddressCodec.Deserialize | raiden/api/v1/encoding.py:72-84 | `missing_prefix` exactly when the text does not begin with `0x` (short texts included); otherwise `invalid_data` exactly when the rest is not even-length hex; otherwise `invalid_size` exactly when the length is not 42; success exactly on well-formed text, always with 20 bytes |
| AddressCodec.Serialize | raiden/api/v1/encoding.py:69-70 | the encoding is prefixed text of length 2 + 2n, and for 20 bytes the field decodes it back to the same bytes |
| AddressCodec.ToPython | raiden/api/v1/encoding.py:44-56 | the URL converter accepts exactly the texts `AddressField` accepts and returns the same 20 bytes; its failures carry no label |
| AddressCodec.ToUrl | raiden/api/v1/encoding.py:58-59 | the URL rendering is the same text as the field's encoding, and the converter reads it back to the same bytes |
| AddressCodec.DeserializeSerialize | raiden/api/v1/encoding.py:69-84 | a decoded address re-encodes to its own text with hex letters lower-cased (the text round trip holds up to case) |
| AddressCodec.EncodeDecode | raiden/api/v1/encoding.py:44-84 | for every 20-byte value, decoding its encoding returns it, and both encoders and both decoders agree |
| AddressCodec.ErrorPriorityExamples | raiden/api/v1/encoding.py:72-84 | failures come in prefix, hex, size order: no prefix gives `missing_prefix`; `0xzz` followed by 38 zeros gives `invalid_data`, not `invalid_size`; `0x` with 38 digits gives `invalid_size` |
| SchemaEngine.DecodeKind | raiden/api/v1/encoding.py:72-84 | an address field accepts a text exactly when `AddressField._deserialize` does, and then holds the decoded bytes; a rejected text fails with the codec's own label (`missing_prefix`, `invalid_data` or `invalid_size`); a list fails with `missing_prefix`, because its slice never equals `'0x'` |
| SchemaEngine.DeserializeField | raiden/api/v1/encoding.py:207-216 | None is accepted exactly when the field's `missing` is None, and then skips the `OneOf` check; any other decoded value of a `OneOf` field is accepted exactly when it is a string among the choices, and without `OneOf` exactly when it decodes; a rejected address text fails with the codec's label |
| SchemaEngine.AddressLabelEnforced | raiden/api/v1/encoding.py:72-84 | a present address text the codec rejects fails the whole load, with the codec's label under that field's name |
| SchemaEngine.LoadField | raiden/api/v1/encoding.py:201-207 | an absent key with no `missing` default is skipped if the field is optional and is a `Required` error if it is required; no other case gives either outcome |
| SchemaEngine.LoadFields | raiden/api/v1/encoding.py:138-145 | only declared field names appear in the loaded values and errors |
| SchemaEngine.LoadFieldsReports | raiden/api/v1/encoding.py:201-216 | with distinct field names, each declared field's outcome appears unchanged under its own name |
| SchemaEngine.LoadFieldsErrorFree | raiden/api/v1/encoding.py:218-219 | the error map is empty exactly when no declared field fails |
| SchemaEngine.Load | raiden/api/v1/encoding.py:142-143 | a strict load succeeds exactly when no declared field fails; otherwise it fails with a non-empty error map over declared names |
| SchemaEngine.UndeclaredIgnored | raiden/api/v1/encoding.py:138-145 | two payloads that agree on every declared name load to the same result, so undeclared keys are never read |
| SchemaEngine.LoadSucceeds | raiden/api/v1/encoding.py:201-216 | a successful load holds each loaded field's value under its name and leaves out skipped fields |
| SchemaEngine.LoadFails | raiden/api/v1/encoding.py:218-219 | one failing field fails the whole load, and its error is kept under its name |
| SchemaEngine.AbsentFieldDefault | raiden/api/v1/encoding.py:205-207 | a field absent from the payload holds its `missing` default after the default is decoded |
| SchemaEngine.PresentAddressField | raiden/api/v1/encoding.py:184-186 | a present address text in a successful load was accepted by the address codec and is held as its decoded bytes |
| SchemaEngine.ChoiceEnforced | raiden/api/v1/encoding.py:190-194 | a present text in a `OneOf` string field loads as that string exactly when it is one of the choices, and otherwise fails with NotOneOf; an outside text fails the whole load with NotOneOf under the field's name; a choice contributes no error to a failed load |
| SchemaEngine.RequiredEnforced | raiden/api/v1/encoding.py:203-204 | a required field missing from the payload fails the load with Required under its name |
| SchemaEngine.LoadObject | raiden/api/v1/encoding.py:108-113 | `make_object` builds an object of the bound class exactly when no declared field fails, with declared names only; otherwise the load fails with a non-empty error map over declared names |
| SchemaEngine.LoadObjectFields | raiden/api/v1/encoding.py:108-113 | the object's keyword arguments are the fields' outcomes: each loaded value under its name, skipped fields left out, and a failing field's error under its name in the failed load |
| SchemaEngine.SerializeField | raiden/api/v1/encoding.py:69-70 | an address value is written as prefixed text that decodes back to the same 20 bytes |
| SchemaEngine.DumpFields | raiden/api/v1/encoding.py:105 | marshmallow's `Schema.dump`, inherited by `BaseSchema`, writes only declared field names |
| SchemaEngine.DumpFieldsReports | raiden/api/v1/encoding.py:207-209 | each declared field is written under its own name: its serialized attribute, else its `default=`, else nothing |
| SchemaEngine.Dump | raiden/api/v1/encoding.py:105 | marshmallow's `Schema.dump` over the declared fields, inherited by `BaseSchema`, contains only declared fields |
| SchemaEngine.AddressFieldRoundTrip | raiden/api/v1/encoding.py:69-84 | loading then dumping an address field returns its text lower-cased |
| ListSchemas.EnvelopeRoundTrip | raiden/api/v1/encoding.py:119-129 | wrapping gives a map whose only key is `data`, and unwrapping it returns the list unchanged |
| ListSchemas.Collect | raiden/api/v1/encoding.py:131-135 | element errors are keyed only by indices of the list |
| ListSchemas.CollectSpec | raiden/api/v1/encoding.py:131-135 | exactly the failing indices carry their element's errors; with no failure the objects are kept one per element, in order |
| ListSchemas.ListLoad | raiden/api/v1/encoding.py:119-135 | the list loads exactly when every element loads; the collection is the bound class with one object per element, in order; otherwise exactly the failing indices carry their errors and no collection is built |
| ListSchemas.DumpEach | raiden/api/v1/encoding.py:159 | the nested dump writes one entry per element, in order |
| ListSchemas.ListDump | raiden/api/v1/encoding.py:127-129 | the unwrapped dump has one entry per collection element, in order, each the element schema's dump |
| Registry.RegistryNamesUnique | raiden/api/v1/encoding.py:138-275 | every concrete schema declares each field name once |
| Registry.ChannelRequestNeedsAddresses | raiden/api/v1/encoding.py:203-204 | a channel request without `token_address` or `partner_address` fails with Required for each missing one |
| Registry.ChannelRequestAddresses | raiden/api/v1/encoding.py:203-204 | in a successful channel request both required addresses are 20 bytes |
| Registry.ChannelRequestBadAddress | raiden/api/v1/encoding.py:201-204 | a present `token_address` the codec rejects fails the request with the codec's label under `token_address`, and an unprefixed one with `missing_prefix` |
| Registry.ChannelRequestDefaults | raiden/api/v1/encoding.py:202-216 | absent `channel_address`, `balance` and `state` become None, and absent timeouts become the configured defaults |
| Registry.ChannelRequestStateChoice | raiden/api/v1/encoding.py:208-216 | a present `state` is accepted exactly when it is one of opened/closed/settled: one of them loads as that string and adds no error, any other fails the request with NotOneOf, and a successful load holds one of the three |
| Registry.TokenSwapsRole | raiden/api/v1/encoding.py:238-242 | `role` is required and is accepted exactly when it is `maker` or `taker`: either loads as that string and adds no error, any other text fails with NotOneOf, and a missing role fails with Required |
| Registry.ChannelListAtomic | raiden/api/v1/encoding.py:183-229 | one channel with a bad state fails the whole channel list, with the error under that element's index |
| Registry.EventRequestDefaults | raiden/api/v1/encoding.py:138-145 | without `from_block` and `to_block` the load gives both as None and ignores every other key |
| Registry.TransferRules | raiden/api/v1/encoding.py:253-262 | `amount` is required; absent addresses and identifier become None |
| Registry.ConnectionsConnectRules | raiden/api/v1/encoding.py:265-270 | `funds` is required; an absent `initial_channel_target` becomes its configured default |
| Registry.TokenRoundTrip | raiden/api/v1/encoding.py:148-155 | an encoded address loads into a `Token` with those bytes, and the `Token` dumps back to the same text |
| Registry.TokensListRoundTrip | raiden/api/v1/encoding.py:148-163 | loading a list of encoded addresses gives a `TokensList` of the tokens in order, and dumping it returns the same list |
| Registry.ChannelRequestMinimalLoads | raiden/api/v1/encoding.py:201-216 | a request holding only the two required addresses loads |
| Registry.ChannelRequestMinimal | raiden/api/v1/encoding.py:201-216 | such a request gives both addresses, None for the channel address, balance and state, and the configured timeouts |
| Registry.ChannelRequestDumpDefaults | raiden/api/v1/encoding.py:202-216 | dumping a request object without `balance` or `state` writes null for it; without `channel_address`, `token_address`, `partner_address`, `settle_timeout` or `reveal_timeout` the key is left out |

## Left out

- `DataField` (`raiden/api/v1/encoding.py:87-93`) is not modelled. It only calls pyethapp's `data_encoder` and `data_decoder`, which are not part of this model, so its prefix and length behaviour cannot be stated.
- HexCodec.AddressEncoder: pyethapp's `address_encoder` is not part of this model. Only its output format (`0x` then lower-case hex) is modelled. Its assertion that the input is 20 or 0 bytes long is not.
- AddressCodec.Deserialize: a non-ASCII character after the prefix counts as `invalid_data`. Under Python 2, a unicode input with such a character raises an uncaught `UnicodeEncodeError` instead.
- SchemaEngine.DecodeKind: a number, boolean or object given to an address field becomes a `NotText` field error. In Python, `value[:2]` on such a value raises an uncaught `TypeError`. A list gives `missing_prefix`, as in Python (`raiden/api/v1/encoding.py:73-74`).
- The input of a load is a JSON object (`Payload`), and a list schema's input is a list of JSON objects. Loading a top-level value of another shape is not modelled, nor is a list element that is not an object. marshmallow's own type errors for these cases are outside this layer.
- SchemaEngine.SerializeField: an address field whose value is not bytes, such as None, is handed to the formatter parameter. The source would pass it to `address_encoder`.
- marshmallow's coercion and formatting for `fields.Integer`, `fields.String` and `fields.Decimal` are parameters (`Primitives`, `Formatter`). The lemmas that need them assume only that integers and strings pass through unchanged.
- Decimal numerics for `joinable_funds_target` are not modelled. The default is carried as a `real` and decoded by the parameter.
- The marshmallow machinery is not modelled as such: `SchemaOpts` reflection, hook registration and webargs `location='json'`. The hooks become explicit wrap, load and construct steps. `decoding_class` becomes the schema's explicit target.
- Error message texts are left out; only the error kinds are kept. A list's nested errors `{'data': {i: {...}}}` are flattened to a map from index to field errors.
- The domain constructors (`Token`, `Channel`, `TokensList`, ...) are opaque. An object is modelled as its class plus the keyword arguments it was given. A collection's elements are assumed to be its `data` attribute when dumped. A constructor rejecting missing arguments is not modelled.
- The values of `DEFAULT_*` and `CHANNEL_STATE_*` come from other modules and are `Settings` fields.
- Werkzeug routing (a converter failure makes the route not match) and HTTP request/response handling are outside this layer.
- Load ignores keys that no field declares. Nothing in the file rejects them.
