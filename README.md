# kubent command-line configuration validation

kubent (kube-no-trouble) finds uses of deprecated and removed Kubernetes
APIs. Before it looks at any cluster, manifest or Helm release, its `config`
package turns the command line into a `Config` record and validates it:

- `--output` must be exactly `json`, `text` or `csv`;
- `--output-file` must not be empty. `-` means standard output and is
  accepted as is. Any other name is refused when its directory does not
  exist;
- every `--additional-kind` entry must be written in full form,
  `Kind.version.group.tld`: at least four dot-separated parts, and a Kind
  whose first letter is upper case.

The checks run in that order, and the first failure is returned. On success,
a target version that was never set becomes a `nil` `TargetVersion`.

The project has four modules:

- `Wrappers` (`wrappers.dfy`): `Option` and `Result`.
- `GoStrings` (`gostrings.dfy`): Go strings as byte sequences. It also
  holds `strings.Split` with a one-byte separator, its inverse
  `strings.Join`, and `unicode.IsUpper` applied to one byte.
- `Config` (`config.dfy`): the configuration record, the three validators,
  and the post-parse part of `NewFromFlags`.
- `ConfigExamples` (`config_examples.dfy`): particular entries and what the
  validation does with them.

Some decisions about how the Go code is read:

- **The capital is classified by byte.** The Go code classifies the first
  *byte* of the Kind, converted to a rune, not the first UTF-8 character.
  A byte read as a code point lies in U+0000..U+00FF. In that range the
  upper-case letters are exactly `A`-`Z`, U+00C0..U+00D6 and
  U+00D8..U+00DE, so `IsUpperByte` is `unicode.IsUpper` on every value the
  code can pass it. As a result, a Kind that starts with a lower-case `é`
  is accepted: its UTF-8 lead byte 0xC3 reads as `Ã`
  (`ConfigExamples.LeadByteDecidesCapitalisation`).
- **The code wins over its doc comment.** The doc comment of
  `validateAdditionalResources` gives `managedcertificate.v1beta1.networking.gke.io`
  as an example. The code refuses that entry, because its Kind is lower case,
  and the model follows the code (`ConfigExamples.DocCommentExampleRefused`).
- **A missing Kind panics.** An entry with four or more parts and an empty
  Kind part, such as `.v1beta1.networking.gke.io`, makes the Go code index an
  empty string once the loop reaches it. The
  model keeps both behaviours: `ValidateAdditionalResourcesAsWritten` has a
  panic outcome, and the corrected `ValidateAdditionalResources` refuses the
  entry (see Findings).

The host reaches `validateOutputFile` through a `Host` value. It holds
`filepath.Dir`, whose result depends on the host's path syntax, and the
answer the filesystem gives to "does `os.Stat` of this directory fail with
`fs.ErrNotExist`". The value of `KUBECONFIG` is a parameter of `Defaults`.

## Model

| member | source | states |
|---|---|---|
| `GoStrings.IsUpperByte` | pkg/config/config.go:112 | `unicode.IsUpper` on a byte read as a code point: on ASCII bytes it is exactly `A`-`Z`, a dot is never upper case, and beyond ASCII it accepts exactly U+00C0..U+00D6 and U+00D8..U+00DE (the Lu letters of U+0080..U+00FF) |
| `GoStrings.LatinEdgeBytesNotUpper` | pkg/config/config.go:112 | the Latin-1 bytes next to or among the upper-case range that are not upper-case letters (`×` 0xD7, `ß` 0xDF, `µ` 0xB5, `ª` 0xAA) are not upper case, while the range ends U+00D6, U+00D8 and U+00DE are |
| `GoStrings.Split` | pkg/config/config.go:107 | splitting yields one more part than there are separators, no part contains the separator, and the first part is the longest separator-free prefix of the string (so `""` splits into one part) |
| `GoStrings.JoinSplit` | pkg/config/config.go:107 | joining the parts of a split gives back the original entry |
| `GoStrings.SplitJoin` | pkg/config/config.go:107 | splitting a join of separator-free parts gives back exactly those parts |
| `Config.Defaults` | pkg/config/config.go:44-66 | the record an empty command line yields: output `text`, an accepted format, output file `-`, no additional kinds, both collectors on, log level info, `KUBECONFIG` as the kubeconfig, and a target version that is allocated but unset |
| `Config.IsValidOutputFormat` | pkg/config/config.go:94-101 | a format is valid exactly when it is one of `json`, `text`, `csv` |
| `Config.OutputFormatIsCaseSensitive` | pkg/config/config.go:94-101 | a format containing any upper-case ASCII letter (`JSON`, `Text`) is refused: the comparison is case-sensitive |
| `Config.ValidateOutputFile` | pkg/config/config.go:121-134 | `""` is refused with the empty-name error and `-` is accepted, whatever the host; any other name is refused exactly when its directory does not exist, and the error names that directory |
| `Config.OutputFileStdoutAndEmptyIgnoreHost` | pkg/config/config.go:121-126 | the outcome for `-` and for `""` is the same on every host: no filesystem state is consulted for them |
| `Config.KindSegment` | pkg/config/config.go:107-112 | the Kind part is a dot-free prefix of the entry, followed by a dot or by the end of the entry |
| `Config.EntryError` | pkg/config/config.go:107-114 | an entry is refused exactly when it has fewer than three dots, or its first byte is a dot or not upper case; fewer than four parts gives the full-form error naming the entry, otherwise the capitalisation error naming the Kind part; the capitalisation error names an empty Kind exactly when the entry has four or more parts and starts with a dot |
| `Config.JoinedEntryAccepted` | pkg/config/config.go:107-114 | for an entry built from dot-free parts: accepted exactly when there are at least four parts and the first part starts with an upper-case byte; fewer than four parts gives the full-form error |
| `Config.ExtraPartAccepted` | pkg/config/config.go:108 | appending a further dot-separated part to an accepted entry keeps it accepted: more than four parts is fine |
| `Config.FirstKindError` | pkg/config/config.go:105-117 | no error exactly when every entry is accepted (so the empty list passes); otherwise the error is that of an entry that is refused while all entries before it are accepted |
| `Config.FirstKindErrorAppend` | pkg/config/config.go:106-115 | entries after the first refused one do not affect the error; after a passing prefix the rest of the list decides |
| `Config.ValidateAdditionalResources` | pkg/config/config.go:105-117 | the loop returns the error of the first refused entry, or no error when all are accepted, with an empty Kind refused as not capitalised |
| `Config.ValidateAdditionalResourcesAsWritten` | pkg/config/config.go:105-117 | the loop as the Go code runs it: it panics exactly when the first refused entry has four or more parts and an empty Kind; otherwise it returns the same error as the corrected loop |
| `Config.NewFromFlags` | pkg/config/config.go:70-89 | an invalid output format is reported first, then an invalid output file, then the first invalid additional kind; success happens exactly when all three pass; on success every field but `TargetVersion` is kept, and `TargetVersion` becomes `nil` exactly when its inner version is unset |
| `Config.DefaultsPassValidation` | pkg/config/config.go:44-66 | the configuration of an empty command line passes all three checks on any host and has an unset target version, so it validates to a `nil` `TargetVersion` |
| `ConfigExamples.ManagedCertificateAccepted` | pkg/config/config.go:105-117 | `ManagedCertificate.v1beta1.networking.gke.io` splits into five parts and is accepted |
| `ConfigExamples.DocCommentExampleRefused` | pkg/config/config.go:103-114 | the doc comment's own example, `managedcertificate.v1beta1.networking.gke.io`, is refused with the capitalisation error naming `managedcertificate` |
| `ConfigExamples.ShortEntriesRefused` | pkg/config/config.go:106-110 | `""` and `a.b.c` are refused with the full-form error, and so is a list whose second entry is `a.b.c` |
| `ConfigExamples.MissingKindPanicsAsWritten` | pkg/config/config.go:112 | `.v1beta1.networking.gke.io` has five parts and an empty Kind part: the condition under which the Go loop panics |
| `ConfigExamples.MissingKindPanics` | pkg/config/config.go:105-117 | running the as-written loop on `[".v1beta1.networking.gke.io"]` ends in the index-out-of-range panic |
| `ConfigExamples.EmptyCommandLine` | pkg/config/config.go:44-89 | `NewFromFlags` on the record of an empty command line succeeds, on any host, with that record and a `nil` `TargetVersion` |
| `ConfigExamples.FirstRefusedEntryHidesLaterOnes` | pkg/config/config.go:106-115 | with `a.b.c` before a Kind-less entry, the full-form error for `a.b.c` is returned and the later entry is never reached |
| `ConfigExamples.LeadByteDecidesCapitalisation` | pkg/config/config.go:112 | a Kind starting with a lower-case `é` is accepted, because its lead byte 0xC3 is an upper-case code point; a Kind starting with `e` is refused |

## Left out

- Flag registration and parsing with `pflag` (pkg/config/config.go:51-66) come from a foreign library. `NewFromFlags` takes the record that parsing produced. `Defaults` gives only the record an empty command line produces.
- The `--labels` flag and `context.WithValue` (pkg/config/config.go:64, 68) are context plumbing. `NewFromFlags` returns no context.
- `os.Getenv` (pkg/config/config.go:59) reads the environment. Its value is the `kubeconfigEnv` parameter of `Defaults`.
- `os.Stat` (pkg/config/config.go:128) touches the filesystem, and the result of `filepath.Dir` (pkg/config/config.go:127) depends on the host's path syntax. Both are functions of the `Host` parameter.
- `judge.Version` and `ZeroLogLevel` are defined outside `pkg/config` and are not modelled. A version is kept as its text, and a log level as its number.
- The error texts built with `fmt.Errorf` are not modelled. Each error is a constructor that carries what its message names: the format, the directory, the entry or the Kind part.
- `unicode.IsUpper` is modelled only on code points U+0000..U+00FF. These are the only values `rune(parts[0][0])` can take.
- test/rules_126_test.go is a fixture-driven test. Its helpers and fixtures are not part of this model.
- The rule evaluation in `pkg/judge`, which consumes the validated configuration, is defined outside `pkg/config` and is not modelled.
- Config.NewFromFlags: runs the corrected additional-kind check. On an entry whose Kind part is empty, the Go function panics instead of returning an error (see Findings and `Config.ValidateAdditionalResourcesAsWritten`).
- Config.NewFromFlags: requires a non-`nil` `TargetVersion`, which the source guarantees by initialising the field at pkg/config/config.go:46.

## Findings

| source | as written | input that shows it | evidently intended | confidence | as-written member | corrected member |
|---|---|---|---|---|---|---|
| pkg/config/config.go:112 | `parts[0][0]` reads the first byte of the Kind part without checking that the part is non-empty | `--additional-kind .v1beta1.networking.gke.io` (five parts, empty Kind) makes the index go out of range, and the program panics | refuse the entry with the "Kind is expected to be capitalized" error, as for any other Kind that does not start with an upper-case letter | not executed | `Config.ValidateAdditionalResourcesAsWritten`, with `ConfigExamples.MissingKindPanicsAsWritten` | `Config.ValidateAdditionalResources` |
