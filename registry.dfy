/**
 * The concrete schemas of raiden's REST API, as declared field tables.
 * The `raiden.settings` defaults and the channel-state constants live
 * outside this model and are passed in as `Settings`.
 */
module Registry {
  import opened Common
  import opened SchemaEngine
  import opened ListSchemas
  import AddressCodec

  datatype Settings = Settings(
    defaultSettleTimeout: int,            // DEFAULT_SETTLE_TIMEOUT
    defaultRevealTimeout: int,            // DEFAULT_REVEAL_TIMEOUT
    defaultInitialChannelTarget: int,     // DEFAULT_INITIAL_CHANNEL_TARGET
    defaultJoinableFundsTarget: real,     // DEFAULT_JOINABLE_FUNDS_TARGET
    stateOpened: string,                  // CHANNEL_STATE_OPENED
    stateClosed: string,                  // CHANNEL_STATE_CLOSED
    stateSettled: string)                 // CHANNEL_STATE_SETTLED

  function ChannelStates(cfg: Settings): seq<string> {
    [cfg.stateClosed, cfg.stateOpened, cfg.stateSettled]
  }

  const Roles: seq<string> := ["maker", "taker"]

  function EventRequestSchema(): Schema {
    Schema([
      FieldSpec("from_block", IntegerKind, missing := Some(Null)),
      FieldSpec("to_block", IntegerKind, missing := Some(Null))
    ], Dict)
  }

  function TokenSchema(): Schema {
    Schema([FieldSpec("address", AddressKind)], Token)
  }

  function TokensListSchema(): ListSchema {
    ListSchema(TokenSchema(), TokensList)
  }

  function PartnersPerTokenSchema(): Schema {
    Schema([
      FieldSpec("partner_address", AddressKind),
      FieldSpec("channel", StringKind)
    ], PartnersPerToken)
  }

  function PartnersPerTokenListSchema(): ListSchema {
    ListSchema(PartnersPerTokenSchema(), PartnersPerTokenList)
  }

  function ChannelSchema(cfg: Settings): Schema {
    Schema([
      FieldSpec("channel_address", AddressKind),
      FieldSpec("token_address", AddressKind),
      FieldSpec("partner_address", AddressKind),
      FieldSpec("settle_timeout", IntegerKind),
      FieldSpec("reveal_timeout", IntegerKind),
      FieldSpec("balance", IntegerKind),
      FieldSpec("state", StringKind, choices := Some(ChannelStates(cfg)))
    ], Channel)
  }

  function ChannelRequestSchema(cfg: Settings): Schema {
    Schema([
      FieldSpec("channel_address", AddressKind, missing := Some(Null)),
      FieldSpec("token_address", AddressKind, required := true),
      FieldSpec("partner_address", AddressKind, required := true),
      FieldSpec("settle_timeout", IntegerKind, missing := Some(Integer(cfg.defaultSettleTimeout))),
      FieldSpec("reveal_timeout", IntegerKind, missing := Some(Integer(cfg.defaultRevealTimeout))),
      FieldSpec("balance", IntegerKind, dumpDefault := Some(Null), missing := Some(Null)),
      FieldSpec("state", StringKind, dumpDefault := Some(Null), missing := Some(Null),
                choices := Some(ChannelStates(cfg)))
    ], Dict)
  }

  function ChannelListSchema(cfg: Settings): ListSchema {
    ListSchema(ChannelSchema(cfg), ChannelList)
  }

  function TokenSwapsSchema(): Schema {
    Schema([
      FieldSpec("role", StringKind, required := true, choices := Some(Roles)),
      FieldSpec("sending_amount", IntegerKind, required := true),
      FieldSpec("sending_token", AddressKind, required := true),
      FieldSpec("receiving_amount", IntegerKind, required := true),
      FieldSpec("receiving_token", AddressKind, required := true)
    ], Dict)
  }

  function TransferSchema(): Schema {
    Schema([
      FieldSpec("initiator_address", AddressKind, missing := Some(Null)),
      FieldSpec("target_address", AddressKind, missing := Some(Null)),
      FieldSpec("token_address", AddressKind, missing := Some(Null)),
      FieldSpec("amount", IntegerKind, required := true),
      FieldSpec("identifier", IntegerKind, missing := Some(Null))
    ], Dict)
  }

  function ConnectionsConnectSchema(cfg: Settings): Schema {
    Schema([
      FieldSpec("funds", IntegerKind, required := true),
      FieldSpec("initial_channel_target", IntegerKind,
                missing := Some(Integer(cfg.defaultInitialChannelTarget))),
      FieldSpec("joinable_funds_target", DecimalKind,
                missing := Some(Real(cfg.defaultJoinableFundsTarget)))
    ], Dict)
  }

  /** Integer fields keep an integer as it is (true of marshmallow's fields.Integer). */
  ghost predicate IntegersAsIs(prim: Primitives) {
    forall n :: prim(IntegerKind, Integer(n)) == Success(Int(n))
  }

  /** String fields keep a string as it is (true of marshmallow's fields.String). */
  ghost predicate StringsAsIs(prim: Primitives) {
    forall s :: prim(StringKind, Text(s)) == Success(Str(s))
  }

  /** Every declared table names each field once. */
  lemma RegistryNamesUnique(cfg: Settings)
    ensures UniqueNames(EventRequestSchema().fields) && UniqueNames(TokenSchema().fields)
    ensures UniqueNames(PartnersPerTokenSchema().fields) && UniqueNames(ChannelSchema(cfg).fields)
    ensures UniqueNames(ChannelRequestSchema(cfg).fields) && UniqueNames(TokenSwapsSchema().fields)
    ensures UniqueNames(TransferSchema().fields) && UniqueNames(ConnectionsConnectSchema(cfg).fields)
  {
    ChannelNamesUnique(cfg);
    ChannelRequestNamesUnique(cfg);
    TokenSwapsNamesUnique();
    TransferNamesUnique();
  }

  lemma ChannelNamesUnique(cfg: Settings)
    ensures UniqueNames(ChannelSchema(cfg).fields)
  {
  }

  lemma ChannelRequestNamesUnique(cfg: Settings)
    ensures UniqueNames(ChannelRequestSchema(cfg).fields)
  {
  }

  lemma TokenSwapsNamesUnique()
    ensures UniqueNames(TokenSwapsSchema().fields)
  {
  }

  lemma TransferNamesUnique()
    ensures UniqueNames(TransferSchema().fields)
  {
  }

  /** `ChannelRequestSchema` refuses a request without either required address. */
  lemma ChannelRequestNeedsAddresses(cfg: Settings, payload: Payload, prim: Primitives)
    requires "token_address" !in payload || "partner_address" !in payload
    ensures var r := Load(ChannelRequestSchema(cfg), payload, prim);
      r.Failure? &&
      ("token_address" !in payload ==> "token_address" in r.error && r.error["token_address"] == Required) &&
      ("partner_address" !in payload ==> "partner_address" in r.error && r.error["partner_address"] == Required)
  {
    var s := ChannelRequestSchema(cfg);
    ChannelRequestNamesUnique(cfg);
    if "token_address" !in payload { LoadFails(s, payload, prim, 1); }
    if "partner_address" !in payload { LoadFails(s, payload, prim, 2); }
  }

  /**
   * A present address the codec rejects fails a channel request with the
   * codec's label under that field; an unprefixed one is a missing prefix.
   */
  lemma ChannelRequestBadAddress(cfg: Settings, payload: Payload, prim: Primitives)
    requires "token_address" in payload && payload["token_address"].Text?
    requires AddressCodec.Deserialize(payload["token_address"].s).Failure?
    ensures var r := Load(ChannelRequestSchema(cfg), payload, prim);
      && r.Failure? && "token_address" in r.error
      && r.error["token_address"] == BadAddress(AddressCodec.Deserialize(payload["token_address"].s).error)
      && (!AddressCodec.Prefixed(payload["token_address"].s) ==>
            r.error["token_address"] == BadAddress(AddressCodec.MissingPrefix))
  {
    ChannelRequestNamesUnique(cfg);
    AddressLabelEnforced(ChannelRequestSchema(cfg), payload, prim, 1);
  }

  /** In a successful `ChannelRequestSchema` load both required addresses are 20 bytes. */
  lemma ChannelRequestAddresses(cfg: Settings, payload: Payload, prim: Primitives)
    requires Load(ChannelRequestSchema(cfg), payload, prim).Success?
    ensures var m := Load(ChannelRequestSchema(cfg), payload, prim).value;
      && "token_address" in m && m["token_address"].Bytes? && |m["token_address"].b| == 20
      && "partner_address" in m && m["partner_address"].Bytes? && |m["partner_address"].b| == 20
  {
    var s := ChannelRequestSchema(cfg);
    ChannelRequestNamesUnique(cfg);
    LoadSucceeds(s, payload, prim, 1);
    LoadSucceeds(s, payload, prim, 2);
  }

  /** In a successful `ChannelRequestSchema` load every absent optional field holds its default. */
  lemma ChannelRequestDefaults(cfg: Settings, payload: Payload, prim: Primitives)
    requires IntegersAsIs(prim)
    requires Load(ChannelRequestSchema(cfg), payload, prim).Success?
    ensures var m := Load(ChannelRequestSchema(cfg), payload, prim).value;
      && ("channel_address" !in payload ==> "channel_address" in m && m["channel_address"] == Nothing)
      && ("settle_timeout" !in payload ==>
            "settle_timeout" in m && m["settle_timeout"] == Int(cfg.defaultSettleTimeout))
      && ("reveal_timeout" !in payload ==>
            "reveal_timeout" in m && m["reveal_timeout"] == Int(cfg.defaultRevealTimeout))
      && ("balance" !in payload ==> "balance" in m && m["balance"] == Nothing)
      && ("state" !in payload ==> "state" in m && m["state"] == Nothing)
  {
    ChannelRequestDefaultNones(cfg, payload, prim);
    ChannelRequestDefaultTimeouts(cfg, payload, prim);
  }

  lemma ChannelRequestDefaultNones(cfg: Settings, payload: Payload, prim: Primitives)
    requires Load(ChannelRequestSchema(cfg), payload, prim).Success?
    ensures var m := Load(ChannelRequestSchema(cfg), payload, prim).value;
      && ("channel_address" !in payload ==> "channel_address" in m && m["channel_address"] == Nothing)
      && ("balance" !in payload ==> "balance" in m && m["balance"] == Nothing)
      && ("state" !in payload ==> "state" in m && m["state"] == Nothing)
  {
    var s := ChannelRequestSchema(cfg);
    ChannelRequestNamesUnique(cfg);
    if "channel_address" !in payload { AbsentFieldDefault(s, payload, prim, 0); }
    if "balance" !in payload { AbsentFieldDefault(s, payload, prim, 5); }
    if "state" !in payload { AbsentFieldDefault(s, payload, prim, 6); }
  }

  lemma ChannelRequestDefaultTimeouts(cfg: Settings, payload: Payload, prim: Primitives)
    requires IntegersAsIs(prim)
    requires Load(ChannelRequestSchema(cfg), payload, prim).Success?
    ensures var m := Load(ChannelRequestSchema(cfg), payload, prim).value;
      && ("settle_timeout" !in payload ==>
            "settle_timeout" in m && m["settle_timeout"] == Int(cfg.defaultSettleTimeout))
      && ("reveal_timeout" !in payload ==>
            "reveal_timeout" in m && m["reveal_timeout"] == Int(cfg.defaultRevealTimeout))
  {
    var s := ChannelRequestSchema(cfg);
    ChannelRequestNamesUnique(cfg);
    if "settle_timeout" !in payload {
      AbsentFieldDefault(s, payload, prim, 3);
      assert prim(IntegerKind, Integer(cfg.defaultSettleTimeout)) == Success(Int(cfg.defaultSettleTimeout));
    }
    if "reveal_timeout" !in payload {
      AbsentFieldDefault(s, payload, prim, 4);
      assert prim(IntegerKind, Integer(cfg.defaultRevealTimeout)) == Success(Int(cfg.defaultRevealTimeout));
    }
  }

  /** A present `state` is accepted exactly when it is one of the three channel states. */
  lemma ChannelRequestStateChoice(cfg: Settings, payload: Payload, prim: Primitives)
    requires StringsAsIs(prim)
    requires "state" in payload && payload["state"].Text?
    ensures var r := Load(ChannelRequestSchema(cfg), payload, prim);
      && (payload["state"].s !in ChannelStates(cfg) ==>
            r.Failure? && "state" in r.error && r.error["state"] == NotOneOf)
      && (r.Success? ==> payload["state"].s in ChannelStates(cfg) && "state" in r.value && r.value["state"] == Str(payload["state"].s))
      && (payload["state"].s in ChannelStates(cfg) ==>
            && LoadField(ChannelRequestSchema(cfg).fields[6], payload, prim) == Loaded(Str(payload["state"].s))
            && (r.Failure? ==> "state" !in r.error))
  {
    ChannelRequestNamesUnique(cfg);
    ChoiceEnforced(ChannelRequestSchema(cfg), payload, prim, 6);
  }

  /** `TokenSwapsSchema` needs a `role`, and it is accepted exactly when it is `maker` or `taker`. */
  lemma TokenSwapsRole(payload: Payload, prim: Primitives)
    requires StringsAsIs(prim)
    ensures var r := Load(TokenSwapsSchema(), payload, prim);
      && ("role" !in payload ==> r.Failure? && "role" in r.error && r.error["role"] == Required)
      && ("role" in payload && payload["role"].Text? && payload["role"].s !in Roles ==>
            r.Failure? && "role" in r.error && r.error["role"] == NotOneOf)
      && (r.Success? ==> "role" in r.value && r.value["role"].Str? && r.value["role"].s in Roles)
      && ("role" in payload && payload["role"].Text? && payload["role"].s in Roles ==>
            && LoadField(TokenSwapsSchema().fields[0], payload, prim) == Loaded(Str(payload["role"].s))
            && (r.Failure? ==> "role" !in r.error))
  {
    var s := TokenSwapsSchema();
    TokenSwapsNamesUnique();
    if "role" !in payload {
      RequiredEnforced(s, payload, prim, 0);
    } else if payload["role"].Text? {
      ChoiceEnforced(s, payload, prim, 0);
    } else if Load(s, payload, prim).Success? {
      LoadSucceeds(s, payload, prim, 0);
    }
  }

  /**
   * One channel with a state outside the three makes the whole channel list
   * load fail, with the error under that element's index.
   */
  lemma ChannelListAtomic(cfg: Settings, xs: seq<Payload>, prim: Primitives, i: nat)
    requires StringsAsIs(prim)
    requires i < |xs| && "state" in xs[i] && xs[i]["state"].Text? && xs[i]["state"].s !in ChannelStates(cfg)
    ensures var r := ListLoad(ChannelListSchema(cfg), xs, prim);
      r.Failure? && i in r.error && "state" in r.error[i] && r.error[i]["state"] == NotOneOf
  {
    ChannelNamesUnique(cfg);
    ChoiceEnforced(ChannelSchema(cfg), xs[i], prim, 6);
  }

  /** `EventRequestSchema` ignores undeclared keys and defaults both blocks to None. */
  lemma EventRequestDefaults(payload: Payload, prim: Primitives)
    requires "from_block" !in payload && "to_block" !in payload
    ensures Load(EventRequestSchema(), payload, prim) == Success(map["from_block" := Nothing, "to_block" := Nothing])
  {
    var s := EventRequestSchema();
    assert LoadField(s.fields[0], payload, prim) == Loaded(Nothing);
    assert LoadField(s.fields[1], payload, prim) == Loaded(Nothing);
    assert Load(s, payload, prim).Success?;
    var m := Load(s, payload, prim).value;
    LoadSucceeds(s, payload, prim, 0);
    LoadSucceeds(s, payload, prim, 1);
    assert Names(s.fields) == {"from_block", "to_block"};
    assert m.Keys == {"from_block", "to_block"};
    assert m["from_block"] == Nothing && m["to_block"] == Nothing;
    assert m == map["from_block" := Nothing, "to_block" := Nothing];
  }

  /** `TransferSchema` needs an `amount`; absent addresses and identifier become None. */
  lemma TransferRules(payload: Payload, prim: Primitives)
    ensures var r := Load(TransferSchema(), payload, prim);
      && ("amount" !in payload ==> r.Failure? && "amount" in r.error && r.error["amount"] == Required)
      && (r.Success? ==>
            && ("initiator_address" !in payload ==> "initiator_address" in r.value && r.value["initiator_address"] == Nothing)
            && ("target_address" !in payload ==> "target_address" in r.value && r.value["target_address"] == Nothing)
            && ("token_address" !in payload ==> "token_address" in r.value && r.value["token_address"] == Nothing)
            && ("identifier" !in payload ==> "identifier" in r.value && r.value["identifier"] == Nothing))
  {
    var s := TransferSchema();
    TransferNamesUnique();
    if "amount" !in payload { RequiredEnforced(s, payload, prim, 3); }
    if Load(s, payload, prim).Success? {
      if "initiator_address" !in payload { AbsentFieldDefault(s, payload, prim, 0); }
      if "target_address" !in payload { AbsentFieldDefault(s, payload, prim, 1); }
      if "token_address" !in payload { AbsentFieldDefault(s, payload, prim, 2); }
      if "identifier" !in payload { AbsentFieldDefault(s, payload, prim, 4); }
    }
  }

  /** `ConnectionsConnectSchema` needs `funds`; an absent channel target takes its default. */
  lemma ConnectionsConnectRules(cfg: Settings, payload: Payload, prim: Primitives)
    requires IntegersAsIs(prim)
    ensures var r := Load(ConnectionsConnectSchema(cfg), payload, prim);
      && ("funds" !in payload ==> r.Failure? && "funds" in r.error && r.error["funds"] == Required)
      && (r.Success? && "initial_channel_target" !in payload ==>
            "initial_channel_target" in r.value && r.value["initial_channel_target"] == Int(cfg.defaultInitialChannelTarget))
  {
    var s := ConnectionsConnectSchema(cfg);
    if "funds" !in payload { RequiredEnforced(s, payload, prim, 0); }
    if Load(s, payload, prim).Success? && "initial_channel_target" !in payload {
      AbsentFieldDefault(s, payload, prim, 1);
      assert prim(IntegerKind, Integer(cfg.defaultInitialChannelTarget))
        == Success(Int(cfg.defaultInitialChannelTarget));
    }
  }

  /** The payload of a token list whose tokens have the given addresses. */
  function TokenPayloads(addrs: seq<seq<Byte>>): (xs: seq<Payload>)
    ensures |xs| == |addrs|
  {
    seq(|addrs|, i requires 0 <= i < |addrs| => map["address" := Text(AddressCodec.Serialize(addrs[i]))])
  }

  /** The `Token` objects with the given addresses. */
  function TokenRecords(addrs: seq<seq<Byte>>): (rs: seq<Record>)
    ensures |rs| == |addrs|
  {
    seq(|addrs|, i requires 0 <= i < |addrs| => Record(Token, map["address" := Bytes(addrs[i])]))
  }

  /** One token: its encoded address loads into a `Token` and dumps back to the same text. */
  lemma TokenRoundTrip(a: seq<Byte>, prim: Primitives, out: Formatter)
    requires |a| == 20
    ensures LoadObject(TokenSchema(), map["address" := Text(AddressCodec.Serialize(a))], prim)
      == Success(Record(Token, map["address" := Bytes(a)]))
    ensures Dump(TokenSchema(), Record(Token, map["address" := Bytes(a)]), out)
      == map["address" := Text(AddressCodec.Serialize(a))]
  {
    var s := TokenSchema();
    var payload := map["address" := Text(AddressCodec.Serialize(a))];
    assert LoadField(s.fields[0], payload, prim) == Loaded(Bytes(a));
    var m := Load(s, payload, prim).value;
    LoadSucceeds(s, payload, prim, 0);
    assert Names(s.fields) == {"address"};
    assert m == map["address" := Bytes(a)];
  }

  /**
   * The token list round trip: loading a list of encoded addresses builds a
   * `TokensList` of `Token`s in the same order, and dumping it gives the list back.
   */
  lemma TokensListRoundTrip(addrs: seq<seq<Byte>>, prim: Primitives, out: Formatter)
    requires forall i :: 0 <= i < |addrs| ==> |addrs[i]| == 20
    ensures ListLoad(TokensListSchema(), TokenPayloads(addrs), prim) == Success(Collection(TokensList, TokenRecords(addrs)))
    ensures ListDump(TokensListSchema(), Collection(TokensList, TokenRecords(addrs)), out) == TokenPayloads(addrs)
  {
    var xs := TokenPayloads(addrs);
    var rs := TokenRecords(addrs);
    forall i | 0 <= i < |addrs|
      ensures LoadObject(TokenSchema(), xs[i], prim) == Success(rs[i])
      ensures Dump(TokenSchema(), rs[i], out) == xs[i]
    {
      TokenRoundTrip(addrs[i], prim, out);
    }
    var r := ListLoad(TokensListSchema(), xs, prim);
    assert r.Success?;
    assert r.value.items == rs;
  }

  /** A channel request naming only the two required addresses, encoded. */
  function MinimalRequest(a: seq<Byte>, b: seq<Byte>): Payload {
    map["token_address" := Text(AddressCodec.Serialize(a)), "partner_address" := Text(AddressCodec.Serialize(b))]
  }

  lemma MinimalRequestAddresses(cfg: Settings, a: seq<Byte>, b: seq<Byte>, prim: Primitives)
    requires |a| == 20 && |b| == 20
    ensures LoadField(ChannelRequestSchema(cfg).fields[1], MinimalRequest(a, b), prim) == Loaded(Bytes(a))
    ensures LoadField(ChannelRequestSchema(cfg).fields[2], MinimalRequest(a, b), prim) == Loaded(Bytes(b))
  {
  }

  lemma MinimalRequestNones(cfg: Settings, a: seq<Byte>, b: seq<Byte>, prim: Primitives)
    ensures LoadField(ChannelRequestSchema(cfg).fields[0], MinimalRequest(a, b), prim) == Loaded(Nothing)
    ensures LoadField(ChannelRequestSchema(cfg).fields[5], MinimalRequest(a, b), prim) == Loaded(Nothing)
    ensures LoadField(ChannelRequestSchema(cfg).fields[6], MinimalRequest(a, b), prim) == Loaded(Nothing)
  {
  }

  lemma MinimalRequestTimeouts(cfg: Settings, a: seq<Byte>, b: seq<Byte>, prim: Primitives)
    requires IntegersAsIs(prim)
    ensures LoadField(ChannelRequestSchema(cfg).fields[3], MinimalRequest(a, b), prim)
      == Loaded(Int(cfg.defaultSettleTimeout))
    ensures LoadField(ChannelRequestSchema(cfg).fields[4], MinimalRequest(a, b), prim)
      == Loaded(Int(cfg.defaultRevealTimeout))
  {
    assert prim(IntegerKind, Integer(cfg.defaultSettleTimeout)) == Success(Int(cfg.defaultSettleTimeout));
    assert prim(IntegerKind, Integer(cfg.defaultRevealTimeout)) == Success(Int(cfg.defaultRevealTimeout));
  }

  /** The two encoded required addresses alone are enough for a `ChannelRequestSchema` load. */
  lemma ChannelRequestMinimalLoads(cfg: Settings, a: seq<Byte>, b: seq<Byte>, prim: Primitives)
    requires IntegersAsIs(prim) && |a| == 20 && |b| == 20
    ensures Load(ChannelRequestSchema(cfg), MinimalRequest(a, b), prim).Success?
  {
    var fs := ChannelRequestSchema(cfg).fields;
    MinimalRequestAddresses(cfg, a, b, prim);
    MinimalRequestNones(cfg, a, b, prim);
    MinimalRequestTimeouts(cfg, a, b, prim);
    forall i | 0 <= i < |fs| ensures !LoadField(fs[i], MinimalRequest(a, b), prim).Failed? {
      assert i in {0, 1, 2, 3, 4, 5, 6};
    }
  }

  /**
   * A request naming only the two required addresses loads with every other
   * field at its default: no channel address, balance or state, and the
   * configured timeouts.
   */
  lemma ChannelRequestMinimal(cfg: Settings, a: seq<Byte>, b: seq<Byte>, prim: Primitives)
    requires IntegersAsIs(prim) && |a| == 20 && |b| == 20
    ensures var r := Load(ChannelRequestSchema(cfg), MinimalRequest(a, b), prim);
      && r.Success?
      && "channel_address" in r.value && r.value["channel_address"] == Nothing
      && "token_address" in r.value && r.value["token_address"] == Bytes(a)
      && "partner_address" in r.value && r.value["partner_address"] == Bytes(b)
      && "settle_timeout" in r.value && r.value["settle_timeout"] == Int(cfg.defaultSettleTimeout)
      && "reveal_timeout" in r.value && r.value["reveal_timeout"] == Int(cfg.defaultRevealTimeout)
      && "balance" in r.value && r.value["balance"] == Nothing
      && "state" in r.value && r.value["state"] == Nothing
  {
    var s := ChannelRequestSchema(cfg);
    var payload := MinimalRequest(a, b);
    ChannelRequestMinimalLoads(cfg, a, b, prim);
    ChannelRequestNamesUnique(cfg);
    MinimalRequestAddresses(cfg, a, b, prim);
    MinimalRequestNones(cfg, a, b, prim);
    MinimalRequestTimeouts(cfg, a, b, prim);
    LoadSucceeds(s, payload, prim, 0);
    LoadSucceeds(s, payload, prim, 1);
    LoadSucceeds(s, payload, prim, 2);
    LoadSucceeds(s, payload, prim, 3);
    LoadSucceeds(s, payload, prim, 4);
    LoadSucceeds(s, payload, prim, 5);
    LoadSucceeds(s, payload, prim, 6);
  }

  /**
   * Dumping a channel request object that lacks `balance` or `state` writes
   * null for it (`default=None`); the other absent fields are left out.
   */
  lemma ChannelRequestDumpDefaults(cfg: Settings, attrs: map<string, Value>, out: Formatter)
    ensures var d := Dump(ChannelRequestSchema(cfg), Record(Dict, attrs), out);
      && ("balance" !in attrs ==> "balance" in d && d["balance"] == Null)
      && ("state" !in attrs ==> "state" in d && d["state"] == Null)
      && ("channel_address" !in attrs ==> "channel_address" !in d)
      && ("token_address" !in attrs ==> "token_address" !in d)
      && ("partner_address" !in attrs ==> "partner_address" !in d)
      && ("settle_timeout" !in attrs ==> "settle_timeout" !in d)
      && ("reveal_timeout" !in attrs ==> "reveal_timeout" !in d)
  {
    ChannelRequestNamesUnique(cfg);
    DumpFieldsReports(ChannelRequestSchema(cfg).fields, attrs, out);
    var fs := ChannelRequestSchema(cfg).fields;
    assert fs[0].name == "channel_address" && fs[3].name == "settle_timeout";
    assert fs[1].name == "token_address" && fs[2].name == "partner_address" && fs[4].name == "reveal_timeout";
    assert fs[5].name == "balance" && fs[6].name == "state";
  }
}
