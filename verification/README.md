# qrun configuration loader, modelled in Dafny

qrun's API and worker services share one configuration snapshot. The loader
in `internal/config/config.go` builds it at startup from environment
variables. Each of the 14 fields of the `Config` record is set by one
resolver call, with a literal variable name and a literal default:

- `loadEnv` returns a string variable verbatim when it is set and non-empty.
  Otherwise it returns the default.
- `loadEnvInt` returns the default when the variable is unset or empty. It
  also returns the default when `strconv.Atoi` rejects the value. Otherwise
  it returns the parsed number, with no range or sign check.
- `New` assembles the record. It cannot fail.

The model treats the process environment as a value, `Env = map<string,
string>`, read the way `os.Getenv` reads it on Unix: names match exactly,
an unset variable reads as `""`, and so does the empty name in any
environment. The model has three modules:

- `Strconv` models Go's `strconv.Atoi` on a 64-bit target as an explicit
  decimal parser. It has the library's fast path for inputs shorter than
  19 bytes. It also has the general path, `ParseInt` over the checked
  `ParseUint` loop with its cutoff and overflow tests. Both paths are proved
  to agree with one declarative definition: an optional `+` or `-`, one or
  more ASCII digits, and a value in the signed 64-bit range. `Itoa` is its
  rendering partner, and `AtoiItoa` is the round trip.
- `Config` holds the record, the two resolvers and `New`. It also holds
  `Schema`: the 14 variable names and defaults that `New` passes to the
  resolvers (internal/config/config.go:63-82), written once as a table.
- `ConfigLaws` holds the lemmas. `New` is proved to follow the `Schema`
  table field by field. The other laws follow from that: defaults when
  unset, verbatim strings, parse-or-fallback integers, each field depending
  only on its own variable, and determinism.

`strconv` is Go's standard library, not part of the qrun repository.
`Strconv` follows that library's algorithm for base 10 and a 64-bit `int`,
and its `Option` carries a conversion's value or its failure.

## Model

| member | source | states |
|---|---|---|
| Config.LoadEnv | internal/config/config.go:36-42 | A variable that is set and non-empty comes back exactly as it is. An unset variable, one set to `""`, and the empty name all give the fallback. |
| Config.LoadEnvInt | internal/config/config.go:45-56 | The result is the value of the variable when the variable is a decimal literal in the 64-bit range. In every other case it is the fallback: unset, empty, malformed or out of range. |
| Config.New | internal/config/config.go:59-86 | Construction always succeeds, and every integer field holds a value of Go's 64-bit `int`. |
| Strconv.Atoi | internal/config/config.go:50-53 | `Atoi` succeeds exactly on an optional sign followed by one or more ASCII digits whose value fits in 64 bits. Leading zeros and `+` are accepted. On success it returns that value. |
| Strconv.ParseInt | internal/config/config.go:50 | The general path takes off the sign, then rejects a magnitude of 2^63 or more when positive and above 2^63 when negative. It accepts exactly the strings `Atoi` accepts, with the same value. |
| Strconv.ParseUint | internal/config/config.go:50 | The unsigned conversion rejects the empty string. It succeeds exactly on digit strings whose value is at most 2^64-1. |
| Strconv.ParseUintFrom | internal/config/config.go:50 | The checked digit loop, with its cutoff and overflow tests, gives the value of the digits exactly when they are all digits and fit in `uint64`. |
| Strconv.AccumulateDigits | internal/config/config.go:50 | The fast-path digit loop has no overflow check. It gives the value of the digits exactly when they are all digits. |
| Strconv.AtoiItoa | internal/config/config.go:50-54 | For every int in the 64-bit range, `Atoi` reads back its decimal rendering. |
| ConfigLaws.LoadEnvUnsetSameAsEmpty | internal/config/config.go:37-40 | An unset variable and a variable set to `""` give the same result, and that result is the fallback. |
| ConfigLaws.LoadEnvIsValueOrFallback | internal/config/config.go:36-42 | The result is either the fallback or the variable's own non-empty text. Nothing else is ever produced. |
| ConfigLaws.LoadEnvIntRoundTrip | internal/config/config.go:46-54 | Setting a non-empty-named variable to the rendering of any 64-bit int, negative ones included, yields that int. No sign or range check intervenes. The empty name keeps the fallback. |
| ConfigLaws.EmptyNameFallsBack | internal/config/config.go:37-40 | Asking either resolver for the empty name gives its fallback in every environment, as `os.Getenv("")` always reads `""`. |
| ConfigLaws.LoadEnvIntNonNumeric | internal/config/config.go:50-53 | A value holding any character that is neither a digit nor a leading sign gives the fallback. No error escapes. |
| ConfigLaws.LoadEnvIntOutOfRange | internal/config/config.go:50-53 | A well-formed number outside the 64-bit range gives the fallback. |
| ConfigLaws.LoadEnvIntRejectsWords | internal/config/config.go:50-53 | "abc" and "notanumber" give the fallback. |
| ConfigLaws.NewMatchesSchema | internal/config/config.go:63-82 | Every field of the snapshot is read from the field's own variable, with the field's own default, by the resolver of the field's type, as the `Schema` table lists them. |
| ConfigLaws.KeysDistinct | internal/config/config.go:63-82 | No two fields read the same variable. |
| ConfigLaws.ResolveLocal | internal/config/config.go:36-56 | Both resolvers look at nothing but the value of the one variable they are given. |
| ConfigLaws.NewUnsetIsDefault | internal/config/config.go:63-82 | A field whose variable is unset or empty holds its default. |
| ConfigLaws.NewStringFieldVerbatim | internal/config/config.go:63-82 | A string field whose variable is non-empty holds that text exactly. |
| ConfigLaws.NewIntField | internal/config/config.go:69-82 | An integer field holds the parsed number when its variable is a valid 64-bit decimal. Otherwise it holds the field's default. |
| ConfigLaws.ConfigExtensional | internal/config/config.go:11-33 | Two records that agree on all 14 fields are the same record. |
| ConfigLaws.NewFieldLocal | internal/config/config.go:63-82 | A field's value depends only on the field's own variable. |
| ConfigLaws.NewUpdateOnlyOwnField | internal/config/config.go:63-82 | Changing one variable leaves every other field as it was. |
| ConfigLaws.NewDeterminedByItsVariables | internal/config/config.go:59-86 | Environments that agree on the 14 variables give identical snapshots, whatever else they hold. Determinism is the special case of equal environments. |
| ConfigLaws.NewEmptyEnv | internal/config/config.go:63-82 | The empty environment gives exactly the 14 literal defaults. |
| ConfigLaws.ScenarioNameAndConcurrency | internal/config/config.go:63-81 | With `APP_NAME="billing"` and `WORKER_CONCURRENCY="10"`, the name is "billing" and the concurrency is 10. The server port keeps "8080". |
| ConfigLaws.ScenarioMalformedTimeout | internal/config/config.go:69 | With `SHUTDOWN_TIMEOUT_MS="notanumber"`, the timeout is 5000. |
| ConfigLaws.ScenarioEmptyPassword | internal/config/config.go:74 | With `REDIS_PASSWORD=""`, the password is the default `""`, whatever the rest of the environment holds. |

## Left out

- The startup `log.Printf` line (internal/config/config.go:84) is left out. It is an output side effect and does not affect the returned value.
- `os.Getenv` is not modelled as a read of the real process environment. The environment is an immutable map parameter instead.
- `os.Getenv` is modelled with Unix lookup: names match exactly. Windows' case-insensitive lookup is not modelled, so there, for example, `app_name` would also set `APP_NAME`.
- The `*Config` pointer and its sharing between goroutines are left out. `New` returns a value, and sharing is the callers' concern.
- Go's `int` is fixed to 64 bits. Builds with a 32-bit `int`, which would change `Atoi`'s range and its fast-path length, are not modelled.
- Strconv.Atoi: does not distinguish the library's `ErrSyntax` from `ErrRange`. Both become `None`, because the loader only tests whether an error occurred.
- Strconv.Atoi: reads characters where Go reads bytes. The accepted strings are the same, because no byte of a multi-byte UTF-8 character is an ASCII digit, sign or other ASCII byte.
- The fallback value that Go's `Atoi` returns alongside an error (0, or the clamped bound) is not modelled. `loadEnvInt` discards it.
- Config.New: its own contract states only that construction succeeds and the integers are in range. The field-by-field behaviour is stated by the `ConfigLaws` lemmas about `New`.

The loader checks no sign or range on integer fields. `WORKER_CONCURRENCY=-1`
gives -1 (`LoadEnvIntRoundTrip`).
