/** The bootstrap layer of the gosqs messaging client (config.go): the typed
    custom-attribute builder, the retry ceiling, the deployment-tier check and
    the choice of session settings. The process environment is passed in as
    a map; the AWS SDK calls are represented by the settings handed to them. */
module GoSqs {
  import opened Wrappers
  import Decimal

  // ---------------------------------------------------------------------
  // Custom attributes

  /** The declared type of an attribute value; any text is a data type, the
      two exported constants below are the ones documented. */
  datatype DataType = DataType(name: string) {
    /** The tag stored in an attribute: the data type's own text. */
    function String(): (s: string)
      ensures DataType(s) == this
    {
      name
    }
  }

  const DataTypeNumber := DataType("Number")
  const DataTypeString := DataType("String")

  /** A dynamically typed argument: a Go int, a Go string, or anything else. */
  datatype Value = IntVal(i: int) | StrVal(s: string) | Other

  datatype CustomAttribute = CustomAttribute(title: string, dataType: string, value: string)

  datatype Error = ErrMarshal | ErrInvalidCreds(cause: string)

  /** The attribute NewCustomAttribute appends, or None where it returns
      ErrMarshal. A Number needs an int, rendered in decimal; every other
      data type, known or not, needs a string, stored unchanged. */
  function Attribute(dataType: DataType, title: string, value: Value): (r: Option<CustomAttribute>)
    ensures r.Some? <==> if dataType == DataTypeNumber then value.IntVal? else value.StrVal?
    ensures r.Some? ==> r.value.title == title && r.value.dataType == dataType.String()
    ensures r.Some? && dataType == DataTypeNumber ==>
              value.IntVal? && Decimal.IsCanonical(r.value.value) &&
              Decimal.ParseDecimal(r.value.value) == Some(value.i)
    ensures r.Some? && dataType != DataTypeNumber ==> value.StrVal? && r.value.value == value.s
  {
    if dataType == DataTypeNumber then
      match value
      case IntVal(i) =>
        Decimal.ParseItoa(i);
        Some(CustomAttribute(title, dataType.String(), Decimal.Itoa(i)))
      case _ => None
    else
      match value
      case StrVal(s) => Some(CustomAttribute(title, dataType.String(), s))
      case _ => None
  }

  /** The fields of the client configuration that the logic here reads or
      writes; the pass-through fields are not modelled. */
  class Config {
    var region: string
    var hostname: string
    var retryCount: int
    var local: bool
    var attributes: seq<CustomAttribute>

    constructor (region: string, hostname: string, retryCount: int, local: bool)
      ensures this.region == region && this.hostname == hostname
      ensures this.retryCount == retryCount && this.local == local
      ensures attributes == []
    {
      this.region := region;
      this.hostname := hostname;
      this.retryCount := retryCount;
      this.local := local;
      attributes := [];
    }

    /** Appends one validated attribute in place, or reports ErrMarshal and
        leaves the attributes as they were. Nothing else changes. */
    method NewCustomAttribute(dataType: DataType, title: string, value: Value) returns (err: Option<Error>)
      modifies this`attributes
      ensures match Attribute(dataType, title, value)
              case Some(a) => err == None && attributes == old(attributes) + [a]
              case None => err == Some(ErrMarshal) && attributes == old(attributes)
    {
      if dataType == DataTypeNumber {
        if !value.IntVal? {
          return Some(ErrMarshal);
        }
        attributes := attributes + [CustomAttribute(title, dataType.String(), Decimal.Itoa(value.i))];
        return None;
      }
      if !value.StrVal? {
        return Some(ErrMarshal);
      }
      attributes := attributes + [CustomAttribute(title, dataType.String(), value.s)];
      return None;
    }
  }

  /** Two attributes added one after the other end up in that order after
      every attribute already there; nothing is dropped, reordered or
      deduplicated, even when the titles are equal. */
  method AddTwoAttributes(c: Config, dataTypeA: DataType, titleA: string, valueA: Value,
                          dataTypeB: DataType, titleB: string, valueB: Value)
    returns (errA: Option<Error>, errB: Option<Error>)
    modifies c`attributes
    ensures errA == None <==> Attribute(dataTypeA, titleA, valueA).Some?
    ensures errB == None <==> Attribute(dataTypeB, titleB, valueB).Some?
    ensures old(c.attributes) <= c.attributes
    ensures errA == None && errB == None ==>
              c.attributes == old(c.attributes) + [Attribute(dataTypeA, titleA, valueA).value,
                                                   Attribute(dataTypeB, titleB, valueB).value]
  {
    errA := c.NewCustomAttribute(dataTypeA, titleA, valueA);
    errB := c.NewCustomAttribute(dataTypeB, titleB, valueB);
  }

  /** The documented behaviour on sample arguments, and an undocumented
      data type taking the string path. */
  lemma AttributeExamples()
    ensures DataTypeNumber.String() == "Number" && DataTypeString.String() == "String"
    ensures Attribute(DataTypeNumber, "t", IntVal(5)) == Some(CustomAttribute("t", "Number", "5"))
    ensures Attribute(DataTypeNumber, "t", IntVal(-42)) == Some(CustomAttribute("t", "Number", "-42"))
    ensures Attribute(DataTypeNumber, "t", StrVal("5")) == None
    ensures Attribute(DataTypeString, "t", StrVal("v")) == Some(CustomAttribute("t", "String", "v"))
    ensures Attribute(DataTypeString, "t", IntVal(5)) == None
    ensures Attribute(DataType("Binary"), "t", StrVal("v")) == Some(CustomAttribute("t", "Binary", "v"))
  {
    assert Decimal.NatDigits(42) == Decimal.NatDigits(4) + [Decimal.DigitChar(2)];
    assert Decimal.NatDigits(42) == "42";
    assert Decimal.Itoa(-42) == "-" + "42" == "-42";
  }

  // ---------------------------------------------------------------------
  // Retry ceiling

  const DefaultRetryCeiling := 10

  /** The retry policy attached on the credentials path: the SDK's default
      retryer with its attempt ceiling replaced. */
  datatype Retryer = Retryer(retryCount: int) {
    function MaxRetries(): (r: int)
      ensures r >= 1
      ensures retryCount > 0 ==> r == retryCount
      ensures retryCount <= 0 ==> r == DefaultRetryCeiling
    {
      if retryCount > 0 then retryCount else DefaultRetryCeiling
    }
  }

  /** A retryer configured with an effective ceiling keeps that ceiling. */
  lemma MaxRetriesStable(retryCount: int)
    ensures Retryer(Retryer(retryCount).MaxRetries()).MaxRetries() == Retryer(retryCount).MaxRetries()
  {
  }

  // ---------------------------------------------------------------------
  // Deployment tier

  /** The process environment: the variables that are set, with their values. */
  type Environment = map<string, string>

  const TierVariable := "ENV"
  const DefaultTier := "dev"

  /** os.LookupEnv on the tier variable, defaulting to "dev" when it is unset. */
  function Tier(env: Environment): string {
    if TierVariable in env then env[TierVariable] else DefaultTier
  }

  /** Production and staging are the only tiers that are not local. */
  function IsLocal(env: Environment): (r: bool)
    ensures !r <==> TierVariable in env && env[TierVariable] in {"production", "staging"}
  {
    var tier := Tier(env);
    tier != "production" && tier != "staging"
  }

  /** An unset tier behaves as "dev", which is local. */
  lemma UnsetTierIsDev(env: Environment)
    requires TierVariable !in env
    ensures IsLocal(env) && IsLocal(env[TierVariable := DefaultTier])
  {
  }

  /** The verdict depends on the tier variable alone. */
  lemma IsLocalReadsOnlyTier(env1: Environment, env2: Environment)
    requires TierVariable in env1 <==> TierVariable in env2
    requires TierVariable in env1 ==> env1[TierVariable] == env2[TierVariable]
    ensures IsLocal(env1) == IsLocal(env2)
  {
  }

  // ---------------------------------------------------------------------
  // Session settings

  const LocalEndpoint := "http://localhost:4566"
  const SdkMaxRetries := 3
  const AccessKeyVariable := "AWS_ACCESS_KEY_ID"
  const SecretKeyVariable := "AWS_SECRET_ACCESS_KEY"
  const SessionTokenVariable := "AWS_SESSION_TOKEN"

  /** os.Getenv: the value of a variable, "" when it is unset. */
  function Getenv(env: Environment, key: string): string {
    if key in env then env[key] else ""
  }

  datatype Credentials = StaticCredentials(accessKeyID: string, secretAccessKey: string, sessionToken: string)

  /** The settings handed to the SDK's session factory; None is a field left unset. */
  datatype AwsConfig = AwsConfig(
    region: Option<string>,
    endpoint: Option<string>,
    maxRetries: Option<int>,
    credentials: Option<Credentials>,
    retryer: Option<Retryer>)

  /** How newSession ends: the process stops with a message, an error is
      returned, or a session is requested with the given settings. */
  datatype SessionOutcome = Fatal(message: string) | Failed(err: Error) | Session(cfg: AwsConfig)

  /** The static credentials the third branch builds from the environment;
      an unset session token becomes "". */
  function EnvCredentials(env: Environment): Credentials {
    StaticCredentials(Getenv(env, AccessKeyVariable), Getenv(env, SecretKeyVariable), Getenv(env, SessionTokenVariable))
  }

  /** Whether the credentials path (local tier, no emulator) is taken. */
  predicate UsesCredentials(c: Config, env: Environment)
    reads c
  {
    IsLocal(env) && !c.local
  }

  /** newSession. `validate` stands for creds.Get: None when the credentials
      are accepted, Some(cause) with the provider's error otherwise. */
  function NewSession(c: Config, env: Environment, validate: Credentials -> Option<string>): (r: SessionOutcome)
    reads c
    ensures r.Fatal? <==>
              UsesCredentials(c, env) &&
              (Getenv(env, AccessKeyVariable) == "" || Getenv(env, SecretKeyVariable) == "")
    ensures r.Fatal? ==>
              r.message == (if Getenv(env, AccessKeyVariable) == "" then AccessKeyVariable else SecretKeyVariable) + " is not set"
    ensures r.Failed? <==> UsesCredentials(c, env) && !r.Fatal? && validate(EnvCredentials(env)).Some?
    ensures r.Failed? ==> r.err == ErrInvalidCreds(validate(EnvCredentials(env)).value)
    ensures r.Session? ==> r.cfg.region == Some(c.region)
    ensures r.Session? ==> (r.cfg.credentials.Some? <==> UsesCredentials(c, env))
    ensures r.Session? && r.cfg.credentials.Some? ==>
              r.cfg.credentials.value == EnvCredentials(env) &&
              r.cfg.credentials.value.accessKeyID != "" && r.cfg.credentials.value.secretAccessKey != "" &&
              validate(r.cfg.credentials.value).None?
    ensures r.Session? ==>
              r.cfg.retryer == (if UsesCredentials(c, env) then Some(Retryer(c.retryCount)) else None)
    ensures r.Session? ==> (r.cfg.maxRetries == None <==> IsLocal(env) && c.local)
    ensures r.Session? && r.cfg.maxRetries.Some? ==> r.cfg.maxRetries.value == SdkMaxRetries
    ensures r.Session? && r.cfg.endpoint.Some? ==>
              IsLocal(env) &&
              (if c.local then r.cfg.endpoint.value == LocalEndpoint
               else r.cfg.endpoint.value == c.hostname && c.hostname != "")
  {
    var awsConfig := AwsConfig(Some(c.region), None, Some(SdkMaxRetries), None, None);
    if !IsLocal(env) then
      Session(awsConfig)
    else if c.local then
      Session(AwsConfig(Some(c.region), Some(LocalEndpoint), None, None, None))
    else
      var awsKey := Getenv(env, AccessKeyVariable);
      if awsKey == "" then
        Fatal(AccessKeyVariable + " is not set")
      else
        var awsSecret := Getenv(env, SecretKeyVariable);
        if awsSecret == "" then
          Fatal(SecretKeyVariable + " is not set")
        else
          var creds := StaticCredentials(awsKey, awsSecret, Getenv(env, SessionTokenVariable));
          match validate(creds)
          case Some(cause) => Failed(ErrInvalidCreds(cause))
          case None =>
            var cfg := awsConfig.(credentials := Some(creds), retryer := Some(Retryer(c.retryCount)));
            if c.hostname != "" then Session(cfg.(endpoint := Some(c.hostname))) else Session(cfg)
  }

  /** Production and staging: the region and the SDK retry count, with the
      ambient credentials and the default endpoint. */
  lemma NonLocalSession(c: Config, env: Environment, validate: Credentials -> Option<string>)
    requires !IsLocal(env)
    ensures NewSession(c, env, validate) == Session(AwsConfig(Some(c.region), None, Some(SdkMaxRetries), None, None))
  {
  }

  /** Local tier with the emulator flag: the fixed emulator endpoint and the
      region, nothing else. */
  lemma LocalEmulatorSession(c: Config, env: Environment, validate: Credentials -> Option<string>)
    requires IsLocal(env) && c.local
    ensures NewSession(c, env, validate) == Session(AwsConfig(Some(c.region), Some(LocalEndpoint), None, None, None))
  {
  }

  /** Local tier without the emulator flag, both keys set and accepted: the
      static credentials and the retryer are attached, and the hostname, when
      given, replaces the endpoint. */
  lemma CredentialSession(c: Config, env: Environment, validate: Credentials -> Option<string>)
    requires IsLocal(env) && !c.local
    requires Getenv(env, AccessKeyVariable) != "" && Getenv(env, SecretKeyVariable) != ""
    requires validate(EnvCredentials(env)) == None
    ensures NewSession(c, env, validate) ==
              Session(AwsConfig(Some(c.region),
                                if c.hostname != "" then Some(c.hostname) else None,
                                Some(SdkMaxRetries),
                                Some(EnvCredentials(env)),
                                Some(Retryer(c.retryCount))))
    ensures SessionTokenVariable !in env ==> EnvCredentials(env).sessionToken == ""
  {
  }

  /** Outside the credentials path the credential variables, the hostname,
      the retry count and the validator play no part. */
  lemma CredentialInputsUnusedOutsideCredentialPath(
    c1: Config, c2: Config, env1: Environment, env2: Environment,
    validate1: Credentials -> Option<string>, validate2: Credentials -> Option<string>)
    requires c1.region == c2.region && c1.local == c2.local
    requires IsLocal(env1) == IsLocal(env2)
    requires !UsesCredentials(c1, env1)
    ensures NewSession(c1, env1, validate1) == NewSession(c2, env2, validate2)
  {
  }
}
