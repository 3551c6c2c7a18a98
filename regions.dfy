/**
 * The region a Secrets Manager client is bound to. An explicit region wins;
 * otherwise the SDK session's default region, then the AWS_SECRETS_REGION
 * environment variable, then the region in the EC2 instance-identity
 * document.
 */
module Regions {
  import opened Common

  /**
   * What region resolution can see: the SDK session's default region, the
   * process environment, and the region in the instance-identity document
   * (None when the request timed out, did not answer 2xx, or had no region).
   */
  datatype Env = Env(
    sessionRegion: Option<string>,
    environ: map<string, string>,
    metadataRegion: Option<string>)

  const SecretsRegionVariable := "AWS_SECRETS_REGION"

  /** Python truthiness of an optional string: present and non-empty. */
  predicate Truthy(s: Option<string>)
  {
    s.Some? && s.value != ""
  }

  /** The outcome of the instance-metadata step. */
  function MetadataAnswer(env: Env): Result<string>
  {
    match env.metadataRegion
    case Some(r) => Ok(r)
    case None => Err(RegionUnavailable)
  }

  /** `get_region`: the region used when none is given on the command line. */
  function GetRegion(env: Env): Result<string>
  {
    if Truthy(env.sessionRegion) then Ok(env.sessionRegion.value)
    else if SecretsRegionVariable in env.environ then Ok(env.environ[SecretsRegionVariable])
    else MetadataAnswer(env)
  }

  /** The region `get_aws_client` binds its client to. */
  function ClientRegion(region: Option<string>, env: Env): Result<string>
  {
    if Truthy(region) then Ok(region.value) else GetRegion(env)
  }

  /** The places a region can come from, in the order they are tried. */
  datatype Source = Explicit | SessionDefault | EnvironmentVariable | InstanceMetadata

  /** What a source offers, if it applies: tested by truthiness, by presence, or always. */
  function Offer(source: Source, region: Option<string>, env: Env): Option<Result<string>>
  {
    match source
    case Explicit => if Truthy(region) then Some(Ok(region.value)) else None
    case SessionDefault =>
      if Truthy(env.sessionRegion) then Some(Ok(env.sessionRegion.value)) else None
    case EnvironmentVariable =>
      if SecretsRegionVariable in env.environ then Some(Ok(env.environ[SecretsRegionVariable]))
      else None
    case InstanceMetadata => Some(MetadataAnswer(env))
  }

  /** The first offer among `sources`. */
  function FirstOffer(sources: seq<Source>, region: Option<string>, env: Env): Option<Result<string>>
  {
    if sources == [] then None
    else if Offer(sources[0], region, env).Some? then Offer(sources[0], region, env)
    else FirstOffer(sources[1..], region, env)
  }

  const Precedence := [Explicit, SessionDefault, EnvironmentVariable, InstanceMetadata]

  /** The client's region is the first offer in precedence order. */
  lemma ClientRegionIsFirstOffer(region: Option<string>, env: Env)
    ensures FirstOffer(Precedence, region, env) == Some(ClientRegion(region, env))
  {
    var p := Precedence;
    assert p[0] == Explicit && p[1..][0] == SessionDefault;
    assert p[1..][1..] == [EnvironmentVariable, InstanceMetadata];
    assert p[1..][1..][1..] == [InstanceMetadata];
    if !Truthy(region) {
      assert FirstOffer(p, region, env) == FirstOffer(p[1..], region, env);
      if !Truthy(env.sessionRegion) {
        var q := p[1..][1..];
        assert FirstOffer(p[1..], region, env) == FirstOffer(q, region, env);
        if SecretsRegionVariable !in env.environ {
          assert FirstOffer(q, region, env) == FirstOffer(q[1..], region, env);
          assert q[1..][0] == InstanceMetadata;
        }
      }
    }
  }

  /**
   * Precedence, each step with the exact test the source uses: a non-empty
   * explicit region is returned whatever the environment says; an empty
   * one is skipped, and so is an empty session region; the environment
   * variable is used whenever it is set, even to the empty string; the
   * metadata region is used only when all three failed, and a failed
   * metadata request is RegionUnavailable.
   */
  lemma ClientRegionPrecedence(region: Option<string>, env: Env, other: Env)
    ensures Truthy(region) ==> ClientRegion(region, env) == Ok(region.value) == ClientRegion(region, other)
    ensures !Truthy(region) && Truthy(env.sessionRegion) ==>
              ClientRegion(region, env) == Ok(env.sessionRegion.value)
    ensures !Truthy(region) && !Truthy(env.sessionRegion) && SecretsRegionVariable in env.environ ==>
              ClientRegion(region, env) == Ok(env.environ[SecretsRegionVariable])
    ensures !Truthy(region) && !Truthy(env.sessionRegion) && SecretsRegionVariable !in env.environ ==>
              ClientRegion(region, env)
              == (if env.metadataRegion.Some? then Ok(env.metadataRegion.value) else Err(RegionUnavailable))
  {
  }

  /** The metadata answer cannot change the outcome unless every other source failed. */
  lemma MetadataIsLastResort(region: Option<string>, env: Env, answer: Option<string>)
    requires Truthy(region) || Truthy(env.sessionRegion) || SecretsRegionVariable in env.environ
    ensures ClientRegion(region, env) == ClientRegion(region, env.(metadataRegion := answer))
    ensures ClientRegion(region, env).Ok?
  {
  }

  /** `region`, `init` and every other command without `--region` resolve through `get_region`. */
  lemma NoExplicitRegion(env: Env)
    ensures ClientRegion(None, env) == GetRegion(env) == ClientRegion(Some(""), env)
  {
  }
}
