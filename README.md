# gosqs client bootstrap, modelled in Dafny

This project models the decision logic of `config.go` in the gosqs SQS/SNS
messaging library: the typed builder that appends custom message attributes
to a `Config`, the retry ceiling of the custom retryer, the classification
of the deployment tier from the `ENV` variable, and the three-way choice of
session settings in `newSession`.

- `wrappers.dfy`: module `Wrappers`, the `Option` type used for nil values.
- `decimal.dfy`: module `Decimal`, the decimal rendering `strconv.Itoa` gives
  an `int` (`Itoa`), a reference parser for the same syntax (`ParseDecimal`),
  and the round trips between them in both directions.
- `config.dfy`: module `GoSqs`.
  - `Config` is a class whose `attributes` sequence `NewCustomAttribute` extends in place.
  - `Attribute` is the pure specification of the attribute that call appends.
  - `Retryer.MaxRetries` is the retry ceiling.
  - `IsLocal` is the tier check.
  - `NewSession` is a pure function from the configuration, the environment
    and the credential-validation result to the outcome of `newSession`.

The process environment is a parameter (`map<string, string>` of the set
variables). `os.LookupEnv` (for `ENV`) and `os.Getenv` (for the credential
variables, where unset reads as `""`) are kept apart, as in the source.
Credential validation (`creds.Get`) is a parameter
`validate: Credentials -> Option<string>` that returns the provider's error
text on failure. The session outcome `Session(cfg)` is the `aws.Config` that
is handed to `session.NewSession`. `Fatal(message)` stands for `log.Fatal`.

Two behaviours of the code are easy to overlook, and the model keeps both:
- Any data type other than `"Number"` takes the string path and is stored
  under its own text. No data type is rejected.
- A credential variable that is set to `""` is treated like an unset one and
  is fatal.

## Model

| member | source | states |
|---|---|---|
| `Decimal.NatDigits` | config.go:73 | The digits of a natural number: at least one digit, only digits, and a leading `0` exactly when the number is zero (so no leading zeros). |
| `Decimal.Itoa` | config.go:73 | The `strconv.Itoa` text of an int is canonical decimal and starts with `-` exactly when the int is negative. |
| `Decimal.NatDigitsValue` | config.go:73 | The digits written for `n` denote `n`. |
| `Decimal.ParseItoa` | config.go:73 | Parsing the stored numeric text gives back the original int. |
| `Decimal.DigitsRoundTrip` | config.go:73 | Every canonical digit string is what is written for the number it denotes. |
| `Decimal.ItoaParse` | config.go:73 | Every canonical decimal text parses, and rendering the parsed int gives the same text, so the two are inverse. |
| `GoSqs.DataType.String` | config.go:85-89 | The tag of a data type is its own text; converting it back gives the same data type. |
| `GoSqs.Attribute` | config.go:66-83 | An attribute is produced exactly when the value matches the type: an int for `"Number"`, a string for every other data type. It carries the title and the data type's text. A number is stored as canonical decimal that parses back to the int. A string is stored unchanged. Otherwise the call gives `ErrMarshal`. |
| `GoSqs.Config.constructor` | config.go:15-50 | A configuration holds the given region, hostname, retry count and local flag, and has no attributes yet. |
| `GoSqs.Config.NewCustomAttribute` | config.go:66-83 | On a match it returns nil and the new attributes are the old ones plus exactly that attribute at the end. On a mismatch it returns `ErrMarshal` and the attributes are unchanged. No other field changes. |
| `GoSqs.AddTwoAttributes` | config.go:73-81 | Two successful additions give the old attributes followed by A then B, even with equal titles. The old attributes always remain a prefix. |
| `GoSqs.AttributeExamples` | config.go:66-95 | The tags are `"Number"` and `"String"`. `(Number, 5)` stores `"5"` and `(Number, -42)` stores `"-42"`. `(Number, "5")` and `(String, 5)` fail. `(String, "v")` stores `"v"`. An undocumented type `"Binary"` with a string is stored under `"Binary"`. |
| `GoSqs.Retryer.MaxRetries` | config.go:97-109 | The ceiling is the configured count when it is positive and 10 otherwise, so it is always at least 1. |
| `GoSqs.MaxRetriesStable` | config.go:103-109 | A retryer configured with an effective ceiling keeps that ceiling. |
| `GoSqs.IsLocal` | config.go:170-177 | The process is non-local exactly when `ENV` is set to `"production"` or `"staging"`. |
| `GoSqs.UnsetTierIsDev` | config.go:171-174 | An unset `ENV` is local and is classified the same as `ENV="dev"`. |
| `GoSqs.IsLocalReadsOnlyTier` | config.go:170-177 | Two environments that agree on `ENV` get the same verdict. |
| `GoSqs.NewSession` | config.go:112-167 | The outcome is fatal exactly on the credentials path (local tier, no emulator flag) when the access key or the secret is empty, and the message names the first one missing. It fails with `ErrInvalidCreds(cause)` exactly when validation of the environment's credentials fails there. Every session carries the region. Credentials and the retryer are set only on the credentials path, and they are exactly the validated environment credentials and `Retryer(RetryCount)`. `MaxRetries=3` is set except on the emulator path. An endpoint is set only on the local tier: the emulator address with the flag, otherwise the non-empty hostname. |
| `GoSqs.NonLocalSession` | config.go:113-124 | Production and staging get the region and `MaxRetries=3`, with no endpoint, credentials or retryer. |
| `GoSqs.LocalEmulatorSession` | config.go:126-135 | The local tier with the flag gets the endpoint `http://localhost:4566` and the region, and nothing else. |
| `GoSqs.CredentialSession` | config.go:137-167 | The credentials path with both keys set and accepted gets the region, `MaxRetries=3`, the static credentials, `Retryer(RetryCount)`, and the hostname as endpoint only when it is non-empty. A missing session token is `""`. |
| `GoSqs.CredentialInputsUnusedOutsideCredentialPath` | config.go:112-135 | Outside the credentials path the outcome does not depend on the credential variables, the hostname, the retry count or the validator. |

## Left out

- The AWS SDK calls `session.NewSession`, `credentials.NewStaticCredentials`, `request.WithRetryer` and `client.DefaultRetryer` are not modelled; their code is not visible. A session is represented by the settings passed to `session.NewSession`, so its own errors, which the source returns unchanged, are not modelled either.
- Which of `MaxRetries=3` and the attached retryer the SDK honours on the credentials path is SDK behaviour and is not modelled.
- `log.Fatal` is the `Fatal` outcome. The process exit itself is not modelled.
- Reads of the process environment (`os.Getenv`, `os.LookupEnv`) are a map parameter.
- GoSqs.NewSession: being a pure function, it cannot state that credential validation runs exactly once. It states only that the outcome on the credentials path is decided by the validation of exactly the environment's credentials.
- Decimal.ParseDecimal is a reference parser without the 64-bit range check of `strconv.Atoi`. Go's `int` width plays no part because no arithmetic is done on attribute values or retry counts.
- The pass-through configuration fields (`AWSAccountID`, `Env`, `TopicPrefix`, `TopicARN`, `QueueURL`, `VisibilityTimeout`, `WorkerPool`, `ExtensionLimit`, `Logger`) carry no logic in this file and are not modelled.
- Concurrent calls to `NewCustomAttribute` on one `Config` are not modelled; serialising them is the caller's obligation.
