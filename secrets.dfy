/**
 * The Secrets Manager backend, reduced to the three calls the client makes,
 * and `get_secret`/`put_secret`, which move a secret's payload either
 * verbatim (raw mode) or through the document codec.
 */
module Secrets {
  import opened Common
  import opened Regions
  import opened Document

  type Bytes = seq<bv8>

  /** A secret is addressed by the region of the client and its name. */
  datatype SecretId = SecretId(region: string, name: string)

  /** The current version of a secret; the backend returns it as text, as binary, or both. */
  datatype Secret = Secret(description: string, secretString: Option<string>, secretBinary: Option<Bytes>)

  /**
   * Library code the client calls and whose behaviour is taken as given:
   * `yaml.load` (None when the text does not parse to a mapping),
   * `json.dumps`, and `bytes.decode("utf-8")` (None on invalid UTF-8).
   */
  datatype Codec = Codec(load: string -> Option<Doc>, dump: Doc -> string, utf8: Bytes -> Option<string>)

  /** The version written by `put_secret_value` with a `SecretString`. */
  function Stored(secret: Secret, text: string): Secret
  {
    secret.(secretString := Some(text), secretBinary := None)
  }

  /** Secrets Manager: every secret of every region. */
  class SecretsManager {
    var secrets: map<SecretId, Secret>

    constructor (initial: map<SecretId, Secret>)
      ensures secrets == initial
    {
      secrets := initial;
    }

    /** `create_secret`: fails when the name is taken in that region. */
    method CreateSecret(id: SecretId, description: string, text: string) returns (r: Result<()>)
      modifies this
      ensures id in old(secrets) ==> r == Err(AlreadyExists) && secrets == old(secrets)
      ensures id !in old(secrets) ==>
                r == Ok(()) && secrets == old(secrets)[id := Secret(description, Some(text), None)]
    {
      if id in secrets {
        return Err(AlreadyExists);
      }
      secrets := secrets[id := Secret(description, Some(text), None)];
      r := Ok(());
    }

    /** `get_secret_value`: the current version, or NotFound. */
    method GetSecretValue(id: SecretId) returns (r: Result<Secret>)
      ensures id in secrets <==> r.Ok?
      ensures r.Ok? ==> r.value == secrets[id]
      ensures r.Err? ==> r.error == NotFound
    {
      if id !in secrets {
        return Err(NotFound);
      }
      r := Ok(secrets[id]);
    }

    /** `put_secret_value` with a `SecretString`, staged as the current version. */
    method PutSecretValue(id: SecretId, text: string) returns (r: Result<()>)
      modifies this
      ensures id !in old(secrets) ==> r == Err(NotFound) && secrets == old(secrets)
      ensures id in old(secrets) ==>
                r == Ok(()) && secrets == old(secrets)[id := Stored(old(secrets)[id], text)]
    {
      if id !in secrets {
        return Err(NotFound);
      }
      secrets := secrets[id := Stored(secrets[id], text)];
      r := Ok(());
    }
  }

  /** The secret a client bound by `get_aws_client(region)` addresses. */
  function Locate(env: Env, region: Option<string>, name: string): Result<SecretId>
  {
    match ClientRegion(region, env)
    case Ok(r) => Ok(SecretId(r, name))
    case Err(e) => Err(e)
  }

  /**
   * The text of a secret: `SecretString` when the response has one, else
   * `SecretBinary` decoded as UTF-8; KeyError when it has neither.
   */
  function SecretText(secret: Secret, codec: Codec): Result<string>
  {
    if secret.secretString.Some? then Ok(secret.secretString.value)
    else if secret.secretBinary.Some? then
      match codec.utf8(secret.secretBinary.value)
      case Some(text) => Ok(text)
      case None => Err(InvalidUtf8)
    else Err(KeyError)
  }

  /** `get_secret(name, region, raw=True)` against the given secrets. */
  function FetchText(secrets: map<SecretId, Secret>, env: Env, codec: Codec,
                     name: string, region: Option<string>): Result<string>
  {
    match Locate(env, region, name)
    case Err(e) => Err(e)
    case Ok(id) => if id in secrets then SecretText(secrets[id], codec) else Err(NotFound)
  }

  /** `get_secret(name, region)`: the fetched text decoded as a document. */
  function FetchDoc(secrets: map<SecretId, Secret>, env: Env, codec: Codec,
                    name: string, region: Option<string>): Result<Doc>
  {
    match FetchText(secrets, env, codec, name, region)
    case Err(e) => Err(e)
    case Ok(text) =>
      match codec.load(text)
      case Some(doc) => Ok(doc)
      case None => Err(InvalidFormat)
  }

  /** The text wins over the binary form, whatever the binary holds. */
  lemma SecretStringWins(secret: Secret, codec: Codec, binary: Option<Bytes>)
    requires secret.secretString.Some?
    ensures SecretText(secret, codec) == Ok(secret.secretString.value)
    ensures SecretText(secret.(secretBinary := binary), codec) == SecretText(secret, codec)
  {
  }

  /** A fetch succeeds only for a secret that exists in the resolved region. */
  lemma FetchTextSucceeds(secrets: map<SecretId, Secret>, env: Env, codec: Codec,
                          name: string, region: Option<string>)
    ensures FetchText(secrets, env, codec, name, region).Ok? ==>
              && Locate(env, region, name).Ok?
              && Locate(env, region, name).value in secrets
    ensures FetchDoc(secrets, env, codec, name, region).Ok? ==>
              FetchText(secrets, env, codec, name, region).Ok?
  {
  }

  /** Raw mode is the identity: text stored by a raw put is fetched back unchanged. */
  lemma RawRoundTrip(secrets: map<SecretId, Secret>, env: Env, codec: Codec,
                     name: string, region: Option<string>, text: string)
    requires Locate(env, region, name).Ok?
    ensures
      var id := Locate(env, region, name).value;
      id in secrets ==> FetchText(secrets[id := Stored(secrets[id], text)], env, codec, name, region) == Ok(text)
  {
  }

  /** The codec round trip `load(dump(d)) == d`, which the client relies on without checking. */
  ghost predicate RoundTrips(codec: Codec)
  {
    forall d :: WfDoc(d) ==> codec.load(codec.dump(d)) == Some(d)
  }

  /** The decoder yields documents with distinct keys, as Python dicts have. */
  ghost predicate LoadsWf(codec: Codec)
  {
    forall text :: codec.load(text).Some? ==> WfDoc(codec.load(text).value)
  }

  /** Under that assumption, a structured put is read back as the same document. */
  lemma StructuredRoundTrip(secrets: map<SecretId, Secret>, env: Env, codec: Codec,
                            name: string, region: Option<string>, doc: Doc)
    requires RoundTrips(codec) && WfDoc(doc)
    requires Locate(env, region, name).Ok?
    ensures
      var id := Locate(env, region, name).value;
      id in secrets ==>
        FetchDoc(secrets[id := Stored(secrets[id], codec.dump(doc))], env, codec, name, region) == Ok(doc)
  {
    var id := Locate(env, region, name).value;
    if id in secrets {
      RawRoundTrip(secrets, env, codec, name, region, codec.dump(doc));
    }
  }

  /** The secrets after `put_secret` pushed `text`; unchanged when the push failed. */
  function Pushed(secrets: map<SecretId, Secret>, env: Env, name: string, region: Option<string>,
                  text: string): map<SecretId, Secret>
  {
    match Locate(env, region, name)
    case Ok(id) => if id in secrets then secrets[id := Stored(secrets[id], text)] else secrets
    case Err(_) => secrets
  }

  /** `get_secret(name, region, raw=True)`. */
  method GetSecretText(sm: SecretsManager, env: Env, codec: Codec, name: string, region: Option<string>)
    returns (r: Result<string>)
    ensures r == FetchText(sm.secrets, env, codec, name, region)
  {
    var id :- Locate(env, region, name);
    var response :- sm.GetSecretValue(id);
    r := SecretText(response, codec);
  }

  /** `get_secret(name, region)`: fetch, then decode. */
  method GetSecretDoc(sm: SecretsManager, env: Env, codec: Codec, name: string, region: Option<string>)
    returns (r: Result<Doc>)
    ensures r == FetchDoc(sm.secrets, env, codec, name, region)
  {
    var text :- GetSecretText(sm, env, codec, name, region);
    match codec.load(text)
    case Some(doc) => r := Ok(doc);
    case None => r := Err(InvalidFormat);
  }

  /** `put_secret(name, text, region, raw=True)`: the text is pushed verbatim. */
  method PutSecretText(sm: SecretsManager, env: Env, name: string, region: Option<string>, text: string)
    returns (r: Result<()>)
    modifies sm
    ensures Locate(env, region, name).Err? ==>
              r == Err(Locate(env, region, name).error) && sm.secrets == old(sm.secrets)
    ensures Locate(env, region, name).Ok? ==>
              var id := Locate(env, region, name).value;
              && (id !in old(sm.secrets) ==> r == Err(NotFound) && sm.secrets == old(sm.secrets))
              && (id in old(sm.secrets) ==>
                    r == Ok(()) && sm.secrets == old(sm.secrets)[id := Stored(old(sm.secrets)[id], text)])
    ensures sm.secrets == Pushed(old(sm.secrets), env, name, region, text)
  {
    var id :- Locate(env, region, name);
    r := sm.PutSecretValue(id, text);
  }

  /** `put_secret(name, doc, region)`: the document is pushed encoded. */
  method PutSecretDoc(sm: SecretsManager, env: Env, codec: Codec, name: string, region: Option<string>, doc: Doc)
    returns (r: Result<()>)
    modifies sm
    ensures Locate(env, region, name).Err? ==>
              r == Err(Locate(env, region, name).error) && sm.secrets == old(sm.secrets)
    ensures Locate(env, region, name).Ok? ==>
              var id := Locate(env, region, name).value;
              && (id !in old(sm.secrets) ==> r == Err(NotFound) && sm.secrets == old(sm.secrets))
              && (id in old(sm.secrets) ==>
                    && r == Ok(())
                    && sm.secrets == old(sm.secrets)[id := Stored(old(sm.secrets)[id], codec.dump(doc))])
    ensures sm.secrets == Pushed(old(sm.secrets), env, name, region, codec.dump(doc))
  {
    r := PutSecretText(sm, env, name, region, codec.dump(doc));
  }
}
