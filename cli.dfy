/**
 * The subcommands: each resolves the region, fetches the secret, and for the
 * structured commands decodes it, runs the command body on the document and,
 * when the body writes, encodes and pushes the result in one cycle.
 */
module Cli {
  import opened Common
  import opened Regions
  import D = Document
  import DocumentLaws
  import opened Secrets

  /** The payload `init` creates a secret with: the empty document. */
  const EmptyPayload := "{}"

  /** `init`: create the secret holding the empty document. */
  method Init(sm: SecretsManager, env: Env, name: string, region: Option<string>, description: string)
    returns (r: Result<()>)
    modifies sm
    ensures Locate(env, region, name).Err? ==>
              r == Err(Locate(env, region, name).error) && sm.secrets == old(sm.secrets)
    ensures Locate(env, region, name).Ok? ==>
              var id := Locate(env, region, name).value;
              && (id in old(sm.secrets) ==> r == Err(AlreadyExists) && sm.secrets == old(sm.secrets))
              && (id !in old(sm.secrets) ==>
                    && r == Ok(())
                    && sm.secrets == old(sm.secrets)[id := Secret(description, Some(EmptyPayload), None)])
  {
    var id :- Locate(env, region, name);
    r := sm.CreateSecret(id, description, EmptyPayload);
  }

  /**
   * `get`: the answer of the `get` body on the fetched document (a miss
   * exits 1); an exception raised by the body is a failure, as in `set`.
   */
  method Get(sm: SecretsManager, env: Env, codec: Codec, name: string, key: string,
             category: Option<string>, region: Option<string>)
    returns (r: Result<D.GetOutcome>)
    ensures r.Ok? ==> !r.value.GetCrash?
    ensures r == match FetchDoc(sm.secrets, env, codec, name, region)
                 case Err(e) => Err(e)
                 case Ok(doc) =>
                   match D.Get(doc, key, category)
                   case GetCrash(e) => Err(e)
                   case answer => Ok(answer)
  {
    var doc :- GetSecretDoc(sm, env, codec, name, region);
    var answer := D.Get(doc, key, category);
    if answer.GetCrash? {
      return Err(answer.error);
    }
    r := Ok(answer);
  }

  /** `set`: one fetch, decode, update, encode and push cycle. */
  method Set(sm: SecretsManager, env: Env, codec: Codec, name: string, key: string, value: string,
             category: Option<string>, region: Option<string>)
    returns (r: Result<()>)
    modifies sm
    ensures
      var fetched := FetchDoc(old(sm.secrets), env, codec, name, region);
      && (fetched.Err? ==> r == Err(fetched.error) && sm.secrets == old(sm.secrets))
      && (fetched.Ok? ==>
            var out := D.Set(fetched.value, key, value, category);
            && (out.Crash? ==> r == Err(out.error) && sm.secrets == old(sm.secrets))
            && (out.Write? ==>
                  && r == Ok(())
                  && sm.secrets == Pushed(old(sm.secrets), env, name, region, codec.dump(out.doc))))
  {
    var doc :- GetSecretDoc(sm, env, codec, name, region);
    FetchTextSucceeds(sm.secrets, env, codec, name, region);
    var out := D.Set(doc, key, value, category);
    if out.Crash? {
      return Err(out.error);
    }
    assert out.Write?;
    r := PutSecretDoc(sm, env, codec, name, region, out.doc);
  }

  /** `remove`: pushes only when the body writes. */
  method Remove(sm: SecretsManager, env: Env, codec: Codec, name: string, key: string,
                category: Option<string>, region: Option<string>)
    returns (r: Result<()>)
    modifies sm
    ensures
      var fetched := FetchDoc(old(sm.secrets), env, codec, name, region);
      && (fetched.Err? ==> r == Err(fetched.error) && sm.secrets == old(sm.secrets))
      && (fetched.Ok? ==>
            var out := D.Remove(fetched.value, key, category);
            && (out.NoWrite? ==> r == Ok(()) && sm.secrets == old(sm.secrets))
            && (out.Crash? ==> r == Err(out.error) && sm.secrets == old(sm.secrets))
            && (out.Write? ==>
                  && r == Ok(())
                  && sm.secrets == Pushed(old(sm.secrets), env, name, region, codec.dump(out.doc))))
  {
    var doc :- GetSecretDoc(sm, env, codec, name, region);
    FetchTextSucceeds(sm.secrets, env, codec, name, region);
    var out := D.Remove(doc, key, category);
    match out
    case NoWrite => r := Ok(());
    case Crash(e) => r := Err(e);
    case Write(d) => r := PutSecretDoc(sm, env, codec, name, region, d);
  }

  /** `list`: the lines the `list` body prints for the fetched document. */
  method List(sm: SecretsManager, env: Env, codec: Codec, name: string,
              category: Option<string>, region: Option<string>)
    returns (r: Result<D.ListOutcome>)
    ensures r == match FetchDoc(sm.secrets, env, codec, name, region)
                 case Err(e) => Err(e)
                 case Ok(doc) => Ok(D.Listing(doc, category))
  {
    var doc :- GetSecretDoc(sm, env, codec, name, region);
    var out := D.List(doc, category);
    r := Ok(out);
  }

  /** `upload`: the file's text replaces the payload verbatim. */
  method Upload(sm: SecretsManager, env: Env, name: string, region: Option<string>, content: string)
    returns (r: Result<()>)
    modifies sm
    ensures sm.secrets == Pushed(old(sm.secrets), env, name, region, content)
    ensures r.Ok? <==> Locate(env, region, name).Ok? && Locate(env, region, name).value in old(sm.secrets)
  {
    r := PutSecretText(sm, env, name, region, content);
  }

  /** `download`: the payload, verbatim. */
  method Download(sm: SecretsManager, env: Env, codec: Codec, name: string, region: Option<string>)
    returns (r: Result<string>)
    ensures r == FetchText(sm.secrets, env, codec, name, region)
  {
    r := GetSecretText(sm, env, codec, name, region);
  }

  /** `upload` followed by `download` gives back exactly the uploaded text. */
  method UploadThenDownload(sm: SecretsManager, env: Env, codec: Codec, name: string,
                            region: Option<string>, content: string)
    returns (up: Result<()>, down: Result<string>)
    modifies sm
    ensures up.Ok? ==> down == Ok(content)
  {
    up := Upload(sm, env, name, region, content);
    down := Download(sm, env, codec, name, region);
    if up.Ok? {
      RawRoundTrip(old(sm.secrets), env, codec, name, region, content);
    }
  }

  /** A secret just created by `init` downloads as `{}`. */
  method InitThenDownload(sm: SecretsManager, env: Env, codec: Codec, name: string,
                          region: Option<string>, description: string)
    returns (created: Result<()>, down: Result<string>)
    modifies sm
    ensures created.Ok? ==> down == Ok(EmptyPayload)
  {
    created := Init(sm, env, name, region, description);
    down := Download(sm, env, codec, name, region);
  }

  /**
   * `set` followed by `get` of the same key and category answers the value
   * just set, when the codec reads back what it wrote.
   */
  method SetThenGet(sm: SecretsManager, env: Env, codec: Codec, name: string, key: string, value: string,
                    category: Option<string>, region: Option<string>)
    returns (stored: Result<()>, got: Result<D.GetOutcome>)
    requires RoundTrips(codec) && LoadsWf(codec)
    modifies sm
    ensures stored.Ok? ==> got == Ok(D.Found(D.Str(value)))
  {
    ghost var before := sm.secrets;
    stored := Set(sm, env, codec, name, key, value, category, region);
    got := Get(sm, env, codec, name, key, category, region);
    if stored.Ok? {
      var doc := FetchDoc(before, env, codec, name, region).value;
      FetchTextSucceeds(before, env, codec, name, region);
      DocumentLaws.SetKeepsWf(doc, key, value, category);
      var written := D.Set(doc, key, value, category).doc;
      StructuredRoundTrip(before, env, codec, name, region, written);
      DocumentLaws.SetThenGet(doc, key, value, category);
    }
  }
}
