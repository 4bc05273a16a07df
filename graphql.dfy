/**
 * The GraphQL client agents and operators use: the tag helpers (ListTags,
 * CreateTags), the service key loaded from PG_SVC_KEY, the key fallback of
 * sign, and the signed headers Do attaches to every request.
 *
 * The transport is a parameter: a call's server response is passed in as
 * a value, base64 as `encode`/`decode` functions, Ed25519 signing as the
 * function `ed25519` from private key and message to signature, and key
 * generation as its outcome `keygen`.
 */
module Graphql {
  import opened Wrappers
  import opened Text

  /** The fields of a tag the client reads back. */
  datatype TagRecord = TagRecord(id: int, name: string)

  /** Why a client call failed. */
  datatype ClientError =
    | RequestFailed                                  // Do failed: transport, HTTP status or decoding
    | MutationFailed                                 // the server answered with errors or without data
    | CreateTagFailed(name: string, cause: ClientError)

  // ---------------------------------------------------------------------
  // ListTags
  // ---------------------------------------------------------------------

  /** The name-to-tag map of a tag list: nil entries are skipped, a later tag replaces an earlier one of the same name. */
  function TagIndex(tags: seq<Option<TagRecord>>): map<string, TagRecord>
  {
    if tags == [] then map[]
    else
      var m := TagIndex(tags[..|tags| - 1]);
      match tags[|tags| - 1]
      case None => m
      case Some(t) => m[t.name := t]
  }

  /** The keys of the map are exactly the names of the non-nil tags in the list. */
  lemma {:induction false} TagIndexKeys(tags: seq<Option<TagRecord>>, name: string)
    ensures name in TagIndex(tags) <==>
            exists i :: 0 <= i < |tags| && tags[i].Some? && tags[i].value.name == name
  {
    if tags != [] {
      var init := tags[..|tags| - 1];
      TagIndexKeys(init, name);
      if exists i :: 0 <= i < |init| && init[i].Some? && init[i].value.name == name {
        var i :| 0 <= i < |init| && init[i].Some? && init[i].value.name == name;
        assert tags[i] == init[i];
      }
      if exists i :: 0 <= i < |tags| && tags[i].Some? && tags[i].value.name == name {
        var i :| 0 <= i < |tags| && tags[i].Some? && tags[i].value.name == name;
        if i < |init| {
          assert init[i] == tags[i];
        }
      }
    }
  }

  /** A tag that no later non-nil entry renames over is the one the map holds for its name. */
  lemma {:induction false} TagIndexLastWins(tags: seq<Option<TagRecord>>, i: nat)
    requires i < |tags| && tags[i].Some?
    requires forall j :: i < j < |tags| ==> tags[j].None? || tags[j].value.name != tags[i].value.name
    ensures tags[i].value.name in TagIndex(tags)
    ensures TagIndex(tags)[tags[i].value.name] == tags[i].value
  {
    var init := tags[..|tags| - 1];
    if i < |tags| - 1 {
      assert init[i] == tags[i];
      TagIndexLastWins(init, i);
    }
  }

  /** client.ListTags, given the decoded response of the ListTags query. */
  method ListTags(response: Result<seq<Option<TagRecord>>, ClientError>)
    returns (r: Result<map<string, TagRecord>, ClientError>)
    ensures response.Failure? ==> r == Failure(response.error)
    ensures response.Success? ==> r == Success(TagIndex(response.value))
  {
    if response.Failure? {
      return Failure(response.error);
    }
    var tags := response.value;
    var m: map<string, TagRecord> := map[];
    var i := 0;
    while i < |tags|
      invariant 0 <= i <= |tags|
      invariant m == TagIndex(tags[..i])
    {
      assert tags[..i + 1][..i] == tags[..i];
      if tags[i].Some? {
        m := m[tags[i].value.name := tags[i].value];
      }
      i := i + 1;
    }
    assert tags[..i] == tags;
    r := Success(m);
  }

  // ---------------------------------------------------------------------
  // CreateTags
  // ---------------------------------------------------------------------

  /**
   * The names CreateTags asks the server to create, in order: each input
   * name that is neither among the existing tags nor an earlier input.
   */
  function ToCreate(names: seq<string>, existing: set<string>): seq<string>
  {
    if names == [] then []
    else
      var init, last := names[..|names| - 1], names[|names| - 1];
      ToCreate(init, existing) + (if last in existing || last in init then [] else [last])
  }

  /** A name is created exactly when it is requested and does not exist yet. */
  lemma {:induction false} ToCreateMembers(names: seq<string>, existing: set<string>, name: string)
    ensures name in ToCreate(names, existing) <==> name in names && name !in existing
  {
    if names != [] {
      var init := names[..|names| - 1];
      ToCreateMembers(init, existing, name);
      assert names == init + [names[|names| - 1]];
    }
  }

  /** No name is created twice, however often it is requested. */
  lemma {:induction false} ToCreateDistinct(names: seq<string>, existing: set<string>)
    ensures var r := ToCreate(names, existing);
            forall i, j :: 0 <= i < j < |r| ==> r[i] != r[j]
  {
    if names != [] {
      var init, last := names[..|names| - 1], names[|names| - 1];
      ToCreateDistinct(init, existing);
      ToCreateMembers(init, existing, last);
    }
  }

  /** The creations for a prefix of the names are a prefix of the creations for all of them. */
  lemma {:induction false} ToCreatePrefix(names: seq<string>, existing: set<string>, k: nat)
    requires k <= |names|
    ensures ToCreate(names[..k], existing) <= ToCreate(names, existing)
    decreases |names|
  {
    if k < |names| {
      var init := names[..|names| - 1];
      assert names[..k] == init[..k];
      ToCreatePrefix(init, existing, k);
    } else {
      assert names[..k] == names;
    }
  }

  /**
   * The state of the creation loop after the first `i` names: the calls so
   * far are the creations those names need, each succeeded, and the map
   * holds the existing tags plus one created tag per call.
   */
  ghost predicate Progress(
    names: seq<string>, existing: map<string, TagRecord>, respond: (nat, string) -> Result<TagRecord, ClientError>,
    i: nat, attempts: seq<string>, tagMap: map<string, TagRecord>)
  {
    && i <= |names|
    && attempts == ToCreate(names[..i], existing.Keys)
    && (forall k :: 0 <= k < |attempts| ==> respond(k, attempts[k]).Success?)
    && (forall n :: n in tagMap <==> n in existing || n in attempts)
    && (forall n :: n in existing ==> tagMap[n] == existing[n])
    && (forall k :: 0 <= k < |attempts| ==> attempts[k] !in existing)
    && (forall k :: 0 <= k < |attempts| ==> tagMap[attempts[k]] == respond(k, attempts[k]).value)
  }

  /** The next name is already in the map: nothing is created. */
  lemma ProgressSkip(
    names: seq<string>, existing: map<string, TagRecord>, respond: (nat, string) -> Result<TagRecord, ClientError>,
    i: nat, attempts: seq<string>, tagMap: map<string, TagRecord>)
    requires Progress(names, existing, respond, i, attempts, tagMap)
    requires i < |names| && names[i] in tagMap
    ensures Progress(names, existing, respond, i + 1, attempts, tagMap)
  {
    ToCreateMembers(names[..i], existing.Keys, names[i]);
    assert names[..i + 1][..i] == names[..i];
  }

  /** The next name is missing: it is the next creation the names need. */
  lemma ProgressNeeds(
    names: seq<string>, existing: map<string, TagRecord>, respond: (nat, string) -> Result<TagRecord, ClientError>,
    i: nat, attempts: seq<string>, tagMap: map<string, TagRecord>)
    requires Progress(names, existing, respond, i, attempts, tagMap)
    requires i < |names| && names[i] !in tagMap
    ensures ToCreate(names[..i + 1], existing.Keys) == attempts + [names[i]]
    ensures attempts + [names[i]] <= ToCreate(names, existing.Keys)
  {
    var prefix, name := names[..i + 1], names[i];
    ToCreateMembers(names[..i], existing.Keys, name);
    assert name !in existing && name !in names[..i];
    assert prefix[..|prefix| - 1] == names[..i] && prefix[|prefix| - 1] == name;
    assert ToCreate(prefix, existing.Keys) == ToCreate(names[..i], existing.Keys) + [name];
    ToCreatePrefix(names, existing.Keys, i + 1);
  }

  /** The next name is missing and its creation succeeds: it enters the map. */
  lemma ProgressCreate(
    names: seq<string>, existing: map<string, TagRecord>, respond: (nat, string) -> Result<TagRecord, ClientError>,
    i: nat, attempts: seq<string>, tagMap: map<string, TagRecord>)
    requires Progress(names, existing, respond, i, attempts, tagMap)
    requires i < |names| && names[i] !in tagMap && respond(|attempts|, names[i]).Success?
    ensures Progress(names, existing, respond, i + 1, attempts + [names[i]],
                     tagMap[names[i] := respond(|attempts|, names[i]).value])
  {
    ProgressNeeds(names, existing, respond, i, attempts, tagMap);
    var name, attempts', tagMap' := names[i], attempts + [names[i]], tagMap[names[i] := respond(|attempts|, names[i]).value];
    assert name !in existing;
    forall k | 0 <= k < |attempts'|
      ensures respond(k, attempts'[k]).Success? && attempts'[k] !in existing
      ensures tagMap'[attempts'[k]] == respond(k, attempts'[k]).value
    {
      if k < |attempts| {
        assert attempts'[k] == attempts[k] != name;
      }
    }
    forall n ensures n in tagMap' <==> n in existing || n in attempts' {
      assert n in attempts' <==> n in attempts || n == name;
    }
  }

  /** After the last name: the calls were all the needed creations, and the map is complete. */
  lemma ProgressDone(
    names: seq<string>, existing: map<string, TagRecord>, respond: (nat, string) -> Result<TagRecord, ClientError>,
    attempts: seq<string>, tagMap: map<string, TagRecord>)
    requires Progress(names, existing, respond, |names|, attempts, tagMap)
    ensures attempts == ToCreate(names, existing.Keys)
    ensures forall k :: 0 <= k < |attempts| ==> respond(k, attempts[k]).Success?
    ensures forall n :: n in tagMap <==> n in existing || n in names
    ensures forall n :: n in existing ==> tagMap[n] == existing[n]
    ensures forall k :: 0 <= k < |attempts| ==> attempts[k] in tagMap && tagMap[attempts[k]] == respond(k, attempts[k]).value
  {
    assert names[..|names|] == names;
    forall n ensures n in attempts <==> n in names && n !in existing {
      ToCreateMembers(names, existing.Keys, n);
    }
  }

  /** A failed creation of the next name: the calls so far, plus this one, are a prefix of the creations. */
  lemma ProgressFailed(
    names: seq<string>, existing: map<string, TagRecord>, respond: (nat, string) -> Result<TagRecord, ClientError>,
    i: nat, attempts: seq<string>, tagMap: map<string, TagRecord>)
    requires Progress(names, existing, respond, i, attempts, tagMap)
    requires i < |names| && names[i] !in tagMap
    ensures attempts + [names[i]] <= ToCreate(names, existing.Keys)
    ensures forall k :: 0 <= k < |attempts| ==> respond(k, (attempts + [names[i]])[k]).Success?
  {
    ProgressNeeds(names, existing, respond, i, attempts, tagMap);
  }

  /**
   * The creation loop of client.CreateTags over the map `existing` of the
   * tags already there: every name not yet in the map is created with the
   * next CreateTag call and entered in the map, so a repeated name is
   * created once; the first failed call ends the loop with its error.
   */
  method CreateMissing(
    names: seq<string>,
    existing: map<string, TagRecord>,
    respond: (nat, string) -> Result<TagRecord, ClientError>)
    returns (r: Result<map<string, TagRecord>, ClientError>, attempts: seq<string>)
    ensures attempts <= ToCreate(names, existing.Keys)
    ensures forall k :: 0 <= k < |attempts| - 1 ==> respond(k, attempts[k]).Success?
    ensures r.Failure? ==>
              && |attempts| > 0
              && var last := attempts[|attempts| - 1];
              && respond(|attempts| - 1, last).Failure?
              && r.error == CreateTagFailed(last, respond(|attempts| - 1, last).error)
    ensures r.Success? ==>
              && attempts == ToCreate(names, existing.Keys)
              && (forall k :: 0 <= k < |attempts| ==> respond(k, attempts[k]).Success?)
              && (forall n :: n in r.value <==> n in existing || n in names)
              && (forall n :: n in existing ==> r.value[n] == existing[n])
              && (forall k :: 0 <= k < |attempts| ==> attempts[k] in r.value && r.value[attempts[k]] == respond(k, attempts[k]).value)
  {
    attempts := [];
    var tagMap := existing;
    var i := 0;
    while i < |names|
      invariant Progress(names, existing, respond, i, attempts, tagMap)
    {
      var name := names[i];
      if name in tagMap {
        ProgressSkip(names, existing, respond, i, attempts, tagMap);
        i := i + 1;
        continue;
      }
      var tag := respond(|attempts|, name);
      if tag.Failure? {
        ProgressFailed(names, existing, respond, i, attempts, tagMap);
        return Failure(CreateTagFailed(name, tag.error)), attempts + [name];
      }
      ProgressCreate(names, existing, respond, i, attempts, tagMap);
      attempts := attempts + [name];
      tagMap := tagMap[name := tag.value];
      i := i + 1;
    }
    ProgressDone(names, existing, respond, attempts, tagMap);
    ToCreatePrefix(names, existing.Keys, |names|);
    r := Success(tagMap);
  }

  /**
   * client.CreateTags. `listResponse` is the response of the ListTags call
   * and `respond(k, name)` the response of the k-th CreateTag call. Besides
   * the result it reports whether ListTags was called and the names passed
   * to CreateTag, in order. No names means no calls at all.
   */
  method CreateTags(
    names: seq<string>,
    listResponse: Result<seq<Option<TagRecord>>, ClientError>,
    respond: (nat, string) -> Result<TagRecord, ClientError>)
    returns (r: Result<map<string, TagRecord>, ClientError>, listed: bool, attempts: seq<string>)
    ensures names == [] ==> r == Success(map[]) && !listed && attempts == []
    ensures names != [] ==> listed
    ensures names != [] && listResponse.Failure? ==> r == Failure(listResponse.error) && attempts == []
    ensures names != [] && listResponse.Success? ==>
              var existing := TagIndex(listResponse.value);
              && attempts <= ToCreate(names, existing.Keys)
              && (forall k :: 0 <= k < |attempts| - 1 ==> respond(k, attempts[k]).Success?)
              && (r.Failure? ==>
                    && |attempts| > 0
                    && var last := attempts[|attempts| - 1];
                    && respond(|attempts| - 1, last).Failure?
                    && r.error == CreateTagFailed(last, respond(|attempts| - 1, last).error))
              && (r.Success? ==>
                    && attempts == ToCreate(names, existing.Keys)
                    && (forall k :: 0 <= k < |attempts| ==> respond(k, attempts[k]).Success?)
                    && (forall n :: n in r.value <==> n in existing || n in names)
                    && (forall n :: n in existing ==> r.value[n] == existing[n])
                    && (forall k :: 0 <= k < |attempts| ==>
                          attempts[k] in r.value && r.value[attempts[k]] == respond(k, attempts[k]).value))
  {
    attempts := [];
    if |names| < 1 {
      return Success(map[]), false, attempts;
    }
    listed := true;
    var found := ListTags(listResponse);
    if found.Failure? {
      return Failure(found.error), listed, attempts;
    }
    r, attempts := CreateMissing(names, found.value, respond);
  }

  // ---------------------------------------------------------------------
  // The service key: keyFromEnv and sign
  // ---------------------------------------------------------------------

  datatype KeyPair = KeyPair(pub: seq<byte>, priv: seq<byte>)

  /** Why keyFromEnv panics. */
  datatype KeyFault = BadFormat | BadPublicBase64 | BadPrivateBase64

  /** What keyFromEnv yields: no key (nil, nil), a decoded pair, or a panic. */
  datatype KeyLoad = NoKey | Loaded(keys: KeyPair) | KeyPanic(fault: KeyFault)

  /** client.keyFromEnv on the value of PG_SVC_KEY, "b64PubKey:b64PrivKey". */
  function KeyFromEnv(value: string, decode: string -> Option<seq<byte>>): KeyLoad
  {
    if value == "" then NoKey
    else
      var parts := Split(value, ':');
      if |parts| != 2 then KeyPanic(BadFormat)
      else match decode(parts[0])
        case None => KeyPanic(BadPublicBase64)
        case Some(pub) =>
          match decode(parts[1])
          case None => KeyPanic(BadPrivateBase64)
          case Some(priv) => Loaded(KeyPair(pub, priv))
  }

  /**
   * An empty value means no key; a non-empty value is well-formed exactly
   * when it holds one ':'; a loaded key pair is the decoding of the two
   * colon-free halves around it.
   */
  lemma KeyFromEnvFormat(value: string, decode: string -> Option<seq<byte>>)
    ensures KeyFromEnv(value, decode) == NoKey <==> value == ""
    ensures value != "" ==> (KeyFromEnv(value, decode) == KeyPanic(BadFormat) <==> Count(value, ':') != 1)
    ensures KeyFromEnv(value, decode).Loaded? ==>
              var parts := Split(value, ':');
              && |parts| == 2
              && value == parts[0] + [':'] + parts[1]
              && ':' !in parts[0] && ':' !in parts[1]
              && decode(parts[0]) == Some(KeyFromEnv(value, decode).keys.pub)
              && decode(parts[1]) == Some(KeyFromEnv(value, decode).keys.priv)
  {
    SplitCount(value, ':');
    SplitJoin(value, ':');
    SplitPiecesFree(value, ':');
    var parts := Split(value, ':');
    if |parts| == 2 {
      assert Join(parts, ':') == parts[0] + [':'] + Join(parts[1..], ':');
      assert parts[1..] == [parts[1]];
    }
  }

  /** The outcome of sign. */
  datatype SignOutcome =
    | Signed(signature: seq<byte>)
    | KeygenFailed                // the error return of sign
    | SignPanicked(fault: KeyFault)

  /** The headers Do sets on a request. */
  datatype Header = ContentType | ServiceHeader | IdentityHeader | EpochHeader | SignatureHeader

  /** A request ready to send: its headers and the bytes that were signed. */
  datatype DoOutcome = Ready(headers: map<Header, string>, signed: seq<byte>) | DoPanicked

  class Client {
    var url: string
    var hasHttp: bool               // HTTP != nil
    var service: string
    var publicKey: Option<seq<byte>>
    var privateKey: Option<seq<byte>>

    constructor (url: string, service: string, publicKey: Option<seq<byte>>, privateKey: Option<seq<byte>>)
      ensures this.url == url && this.service == service && !hasHttp
      ensures this.publicKey == publicKey && this.privateKey == privateKey
    {
      this.url := url;
      this.service := service;
      this.publicKey := publicKey;
      this.privateKey := privateKey;
      hasHttp := false;
    }

    /**
     * client.sign. Keys already present are kept; if either is missing,
     * both are replaced by what PG_SVC_KEY (`env`) yields; if either is still
     * missing, a generated pair is stored. The message is then signed with
     * the private key.
     */
    method Sign(
      msg: seq<byte>,
      env: string,
      decode: string -> Option<seq<byte>>,
      keygen: Option<KeyPair>,
      ed25519: (seq<byte>, seq<byte>) -> seq<byte>)
      returns (r: SignOutcome)
      modifies this`publicKey, this`privateKey
      ensures r.Signed? ==> publicKey.Some? && privateKey.Some? && r.signature == ed25519(privateKey.value, msg)
      ensures old(publicKey).Some? && old(privateKey).Some? ==>
                publicKey == old(publicKey) && privateKey == old(privateKey) && r.Signed?
      ensures !(old(publicKey).Some? && old(privateKey).Some?) ==>
                match KeyFromEnv(env, decode)
                case KeyPanic(f) =>
                  r == SignPanicked(f) && publicKey == old(publicKey) && privateKey == old(privateKey)
                case Loaded(keys) =>
                  r.Signed? && publicKey == Some(keys.pub) && privateKey == Some(keys.priv)
                case NoKey =>
                  if keygen.None? then r == KeygenFailed && publicKey.None? && privateKey.None?
                  else r.Signed? && publicKey == Some(keygen.value.pub) && privateKey == Some(keygen.value.priv)
    {
      if publicKey.None? || privateKey.None? {
        var loaded := KeyFromEnv(env, decode);
        match loaded {
          case KeyPanic(f) =>
            return SignPanicked(f);
          case NoKey =>
            publicKey, privateKey := None, None;
          case Loaded(keys) =>
            publicKey, privateKey := Some(keys.pub), Some(keys.priv);
        }
      }
      if publicKey.None? || privateKey.None? {
        if keygen.None? {
          return KeygenFailed;
        }
        publicKey, privateKey := Some(keygen.value.pub), Some(keygen.value.priv);
      }
      r := Signed(ed25519(privateKey.value, msg));
    }

    /**
     * The header construction of client.Do at Unix time `now`: the epoch
     * header is the decimal seconds, and the signed message is exactly the
     * bytes of that header. A failure to sign panics. Encoding the body,
     * sending and decoding are not part of this model.
     */
    method Do(
      now: int,
      env: string,
      decode: string -> Option<seq<byte>>,
      keygen: Option<KeyPair>,
      ed25519: (seq<byte>, seq<byte>) -> seq<byte>,
      encode: seq<byte> -> string)
      returns (r: DoOutcome)
      modifies this`publicKey, this`privateKey, this`hasHttp
      ensures old(publicKey).Some? && old(privateKey).Some? ==>
                r.Ready? && publicKey == old(publicKey) && privateKey == old(privateKey)
      ensures r.Ready? ==>
                && publicKey.Some? && privateKey.Some? && hasHttp
                && r.signed == AsciiBytes(Decimal(now))
                && r.headers == map[
                     ContentType := "application/json",
                     ServiceHeader := service,
                     IdentityHeader := encode(publicKey.value),
                     EpochHeader := Decimal(now),
                     SignatureHeader := encode(ed25519(privateKey.value, r.signed))]
      ensures !(old(publicKey).Some? && old(privateKey).Some?) ==>
                match KeyFromEnv(env, decode)
                case KeyPanic(_) =>
                  r.DoPanicked? && publicKey == old(publicKey) && privateKey == old(privateKey)
                case Loaded(keys) =>
                  r.Ready? && publicKey == Some(keys.pub) && privateKey == Some(keys.priv)
                case NoKey =>
                  if keygen.None? then r.DoPanicked? && publicKey.None? && privateKey.None?
                  else r.Ready? && publicKey == Some(keygen.value.pub) && privateKey == Some(keygen.value.priv)
      ensures r.DoPanicked? ==> hasHttp == old(hasHttp)
    {
      var epoch := Decimal(now);
      var msg := AsciiBytes(epoch);
      var sig := Sign(msg, env, decode, keygen, ed25519);
      if !sig.Signed? {
        return DoPanicked;
      }
      var headers := map[
        ContentType := "application/json",
        ServiceHeader := service,
        IdentityHeader := encode(publicKey.value),
        EpochHeader := epoch,
        SignatureHeader := encode(sig.signature)];
      if !hasHttp {
        hasHttp := true;
      }
      r := Ready(headers, msg);
    }
  }

  /** The epoch header is the signed message: its bytes read back as the same text, which parses to the time. */
  lemma SignedEpochRoundTrip(now: int)
    ensures AsciiString(AsciiBytes(Decimal(now))) == Decimal(now)
    ensures ParseDecimal(AsciiString(AsciiBytes(Decimal(now)))) == Some(now)
  {
    AsciiRoundTrip(Decimal(now));
    DecimalRoundTrip(now);
  }
}
