# secretcli, modelled in Dafny

secretcli is a command-line client that keeps a structured secret document
in AWS Secrets Manager. The payload of a secret is YAML/JSON text that
decodes to a document: a mapping from keys to values, where each value is a
string or a one-level *category* mapping strings to strings. The
subcommands `get`, `set`, `remove` and `list` act on one key, optionally
inside a category. `upload` and `download` move the payload verbatim
("raw mode"). `init` creates a secret holding `{}`. Every command first
resolves the AWS region: an explicit `--region`, else the SDK session's
default region, else the `AWS_SECRETS_REGION` environment variable, else
the EC2 instance-identity document.

The model has these parts:

- `Common` (common.dfy): `Option`, the failures an invocation can end with,
  and `Result`.
- `Dicts` (dicts.dfy): a Python dict with string keys, modelled as an
  association list in insertion order. `Assign` keeps a present key in its
  place and appends a new one. `Delete` drops an entry. `ToMap` is the same
  dict seen as a plain mapping, and the lemmas state each operation against it.
- `Document` (document.dfy): values (`Str` | `Cat`), the bodies of `get`,
  `set`, `remove` and `list` as functions returning explicit outcomes, and
  the `for key in ...` loop of `list` as methods.
  - `get` returns `Found` / `Miss` / `GetCrash`.
  - `set` and `remove` return `NoWrite` / `Write(doc)` / `Crash`.
  - `list` returns `Lines` / `Fail`.
- `DocumentLaws`, `DocumentExamples` (document_laws.dfy): what those bodies
  promise, stated on the mapping view and on the key order, plus worked
  examples.
- `Regions` (regions.dfy): `get_region` and the explicit-region shortcut of
  `get_aws_client`, as a pure function of an `Env` (session default region,
  environment, metadata answer).
- `Secrets` (secrets.dfy): the backend as a class `SecretsManager` holding
  every secret by (region, name). It also holds `get_secret` / `put_secret`
  in raw and structured mode. The YAML/JSON codec and UTF-8 decoding are
  parameters (`Codec`).
- `Cli` (cli.dfy): the subcommands as methods doing one
  fetch → decode → run body → encode → push cycle, and client methods that
  compose them.

Python's truthiness is kept exactly where the code uses it.
- A category counts only when it is non-empty (`if category:`).
- The explicit region and the session region must be non-empty.
- `AWS_SECRETS_REGION` is tested for presence only, so an empty value is
  returned as the region.

When a category names a string rather than a mapping, the model follows
what Python does.
- `key in "text"` is a substring test (`Document.Contains`).
- Indexing, assigning into or deleting from the string raises `TypeError`.
- `list` over the string prints its characters.

`remove` with a category is modelled as written. After the optional
deletion inside the category, it deletes the top-level entry of the same
key without any check.
- If that entry exists, it is deleted, even though it is unrelated to the
  category.
- If it is absent, the command raises `KeyError` and pushes nothing, so the
  deletion inside the category is lost.
- So, with a category, `remove` is neither a no-op on a missing key nor
  idempotent. `DocumentLaws.RemoveInCategory` and the three
  `DocumentExamples.RemoveInCategory*` lemmas state this.

Without a category, removing twice equals removing once
(`DocumentLaws.RemoveTopLevelIdempotent`). With a category, a second run
raises KeyError (`DocumentExamples.RemoveInCategoryNotIdempotent`).
The code never checks that `yaml.load` returned a mapping; the model's
decoder yields a document or a failure, so that unchecked case is left out
(see below).

## Model

| member | source | states |
|---|---|---|
| Dicts.Keys | secretcli/secretcli.py:158-159 | iterating a dict yields one key per entry, in entry order |
| Dicts.Find | secretcli/secretcli.py:102-107 | `key in d` / `d[key]` agree with the dict seen as a mapping |
| Dicts.AssignToMap | secretcli/secretcli.py:122-125 | `d[k] = v` changes the mapping at `k` to `v` and nowhere else |
| Dicts.AssignKeys | secretcli/secretcli.py:122-125 | `d[k] = v` keeps a present key in its place and appends a new key last |
| Dicts.AssignWf | secretcli/secretcli.py:122-125 | assignment keeps keys distinct |
| Dicts.DeleteToMap | secretcli/secretcli.py:140-143 | `del d[k]` removes `k` from the mapping and changes nothing else |
| Dicts.DeleteKeys | secretcli/secretcli.py:140-143 | `del d[k]` leaves the other keys in their original order |
| Dicts.DeleteWf | secretcli/secretcli.py:140-143 | deletion keeps keys distinct and introduces no key |
| Dicts.WfDistinct | secretcli/secretcli.py:158-159 | a well-formed dict lists every key exactly once (pairwise distinct keys), and conversely |
| Document.ContainsSlice | secretcli/secretcli.py:103-103 | `key in s` on a string holds exactly when `key` is a slice of `s` |
| Document.GetSpec | secretcli/secretcli.py:99-109 | `get` answers the category's value when category and key exist; raises TypeError when the category is a string containing the key; otherwise falls back to the top-level value (a category map included); misses exactly when every lookup fails |
| Document.Chars | secretcli/secretcli.py:155-159 | iterating a string category yields its characters, one per line |
| Document.EmitKeys | secretcli/secretcli.py:158-159 | the `for key in d` loop emits exactly the keys of `d` in order |
| Document.EmitChars | secretcli/secretcli.py:158-159 | the same loop over a string emits its characters in order |
| Document.List | secretcli/secretcli.py:151-159 | the `list` body prints what `Listing` says: top-level keys, the category's keys, or fails on an absent category |
| DocumentLaws.SetTopLevel | secretcli/secretcli.py:124-125 | `set` without a (non-empty) category stores `Str(value)` under the key, possibly replacing a category; every other entry unchanged; a new key goes last |
| DocumentLaws.SetInScalarCategory | secretcli/secretcli.py:120-123 | `set` into a category that names a string raises TypeError |
| DocumentLaws.SetInCategory | secretcli/secretcli.py:120-123 | `set` with a category creates it empty (appended) when absent, then maps the key to the value; other keys of the category and other top-level entries unchanged, order kept |
| DocumentLaws.SetKeepsWf | secretcli/secretcli.py:118-126 | a document `set` pushes has distinct keys at both levels when the fetched one had |
| DocumentLaws.SetThenGet | secretcli/secretcli.py:99-126 | whenever `set` writes, `get` of the same key and category on the result answers the value just set |
| DocumentLaws.RemoveTopLevel | secretcli/secretcli.py:141-144 | `remove` without a category writes nothing iff the key is absent; otherwise pushes the document minus that key, other keys in order |
| DocumentLaws.RemoveTopLevelIdempotent | secretcli/secretcli.py:141-144 | without a category, removing twice leaves the same document as removing once |
| DocumentLaws.RemoveInAbsentCategory | secretcli/secretcli.py:136-138 | `remove` with an absent category writes nothing |
| DocumentLaws.RemoveInScalarCategory | secretcli/secretcli.py:136-144 | with a string category: TypeError when the key is a substring; otherwise deletes the top-level key, or KeyError when it is absent |
| DocumentLaws.RemoveInCategory | secretcli/secretcli.py:136-144 | with a map category: the key is removed from the category if there, then the top-level entry of the same key is deleted; KeyError (nothing pushed) when that entry is absent; the pushed document keeps the other top-level keys in order |
| DocumentLaws.RemoveInCategoryHit | secretcli/secretcli.py:139-144 | the key present in the category: category pruned, then the top-level key deleted or KeyError |
| DocumentLaws.RemoveInCategoryMiss | secretcli/secretcli.py:139-144 | the key absent from the category: the top-level key deleted or KeyError |
| DocumentLaws.ListingSpec | secretcli/secretcli.py:151-159 | `list` without a category prints each top-level key once in document order; with a present map category its keys, each once; with an absent category it fails |
| DocumentExamples.EmptyCategoryIsTopLevel | secretcli/secretcli.py:101-101 | an empty category name behaves exactly like no category in get, set, remove and list |
| DocumentExamples.GetExamples | secretcli/secretcli.py:99-109 | on `{"db": {"user": "alice"}}`: `get user -c db` is alice; `get pass -c db` misses; a top-level `pass` is found by the fallback |
| DocumentExamples.SetExamples | secretcli/secretcli.py:118-126 | `set debug true` on `{}` gives `{"debug": "true"}`; with `-c flags` gives `{"flags": {"debug": "true"}}` |
| DocumentExamples.ListExamples | secretcli/secretcli.py:151-159 | `list` on `{"a": "1", "b": "2"}` prints a then b; with an absent category it fails |
| DocumentExamples.RemoveInCategoryDeletesTopLevel | secretcli/secretcli.py:136-144 | `remove user -c db` also deletes an unrelated top-level `user` |
| DocumentExamples.RemoveInCategoryLosesDeletion | secretcli/secretcli.py:136-144 | without a top-level `user`, `remove user -c db` raises KeyError and the category keeps its key |
| DocumentExamples.RemoveInCategoryNotIdempotent | secretcli/secretcli.py:136-144 | with a category, a second identical `remove` raises KeyError |
| Regions.ClientRegionIsFirstOffer | secretcli/secretcli.py:40-61 | the client's region is the first offer among explicit, session default, environment variable, instance metadata |
| Regions.ClientRegionPrecedence | secretcli/secretcli.py:40-61 | a non-empty explicit region wins whatever the environment; then a non-empty session region; then AWS_SECRETS_REGION whenever set, even empty; else the metadata region, or RegionUnavailable when the metadata request failed |
| Regions.MetadataIsLastResort | secretcli/secretcli.py:44-56 | the metadata answer cannot affect the result when an earlier source applies, and then resolution succeeds |
| Regions.NoExplicitRegion | secretcli/secretcli.py:58-61 | no region or an empty one resolves through `get_region` |
| Secrets.SecretsManager.CreateSecret | secretcli/secretcli.py:87-91 | creating a taken name fails with AlreadyExists and changes nothing; otherwise only that secret is added |
| Secrets.SecretsManager.GetSecretValue | secretcli/secretcli.py:15-15 | returns the current version, NotFound exactly when the secret does not exist |
| Secrets.SecretsManager.PutSecretValue | secretcli/secretcli.py:32-38 | overwrites only that secret's current version; NotFound and no change when it does not exist |
| Secrets.SecretStringWins | secretcli/secretcli.py:16-19 | SecretString is returned when present, whatever SecretBinary holds |
| Secrets.FetchTextSucceeds | secretcli/secretcli.py:10-23 | a successful fetch implies a resolved region and an existing secret |
| Secrets.RawRoundTrip | secretcli/secretcli.py:21-29 | text pushed in raw mode is fetched back unchanged |
| Secrets.StructuredRoundTrip | secretcli/secretcli.py:23-31 | if the codec reads back what it writes, a pushed document is fetched back as the same document |
| Secrets.GetSecretText | secretcli/secretcli.py:10-22 | raw `get_secret` returns the stored text, or the region, NotFound, UTF-8 or KeyError failure |
| Secrets.GetSecretDoc | secretcli/secretcli.py:10-23 | structured `get_secret` returns the decoded text, or InvalidFormat |
| Secrets.PutSecretText | secretcli/secretcli.py:25-38 | raw `put_secret` stores the text verbatim as that secret's current version and changes no other secret |
| Secrets.PutSecretDoc | secretcli/secretcli.py:25-38 | structured `put_secret` stores the encoded document and changes no other secret |
| Cli.Init | secretcli/secretcli.py:81-91 | `init` creates the secret with payload exactly `{}`, or fails AlreadyExists without change |
| Cli.Get | secretcli/secretcli.py:94-109 | `get` answers the `get` body on the fetched document (`Found` or `Miss`); a TypeError from the body and a fetch failure come back as `Err`, like `set` and `remove` |
| Cli.Set | secretcli/secretcli.py:112-126 | `set` does one fetch-decode-update-encode-push; a failed fetch or a TypeError pushes nothing |
| Cli.Remove | secretcli/secretcli.py:129-144 | `remove` pushes exactly when the body writes; no-op and crash leave the store unchanged |
| Cli.List | secretcli/secretcli.py:147-159 | `list` prints the `Listing` of the fetched document, or the fetch failure |
| Cli.Upload | secretcli/secretcli.py:162-168 | `upload` stores the file text verbatim; succeeds exactly when the secret exists in the resolved region |
| Cli.Download | secretcli/secretcli.py:171-181 | `download` returns the stored text verbatim |
| Cli.UploadThenDownload | secretcli/secretcli.py:162-181 | a successful `upload` followed by `download` gives back exactly the uploaded text |
| Cli.InitThenDownload | secretcli/secretcli.py:85-181 | a secret just created by `init` downloads as `{}` |
| Cli.SetThenGet | secretcli/secretcli.py:94-126 | a successful `set` followed by `get` of the same key and category answers the value, given a codec that round-trips |

## Left out

- The AWS Secrets Manager service is replaced by the `SecretsManager`
  class. boto3 client construction, credentials, transport, version stages
  other than the current one, and service errors other than NotFound and
  AlreadyExists are not modelled.
- The instance-metadata HTTP request is not modelled. Its answer is the
  `metadataRegion` input of `Env`: the region, or None when the request
  timed out, answered non-2xx, or returned a document without a `region`
  field; None resolves to RegionUnavailable.
- `yaml.load`, `json.dumps` and `bytes.decode("utf-8")` are library code.
  They are the function fields of `Codec`.
  - `load(dump(d)) == d` is not proved. It is the explicit assumption
    `RoundTrips`, used only by `Secrets.StructuredRoundTrip` and
    `Cli.SetThenGet`.
  - `LoadsWf` assumes that a decoded document has distinct keys.
  - A YAML payload that decodes to a list or a scalar, or to values that
    are not strings or string maps (numbers, booleans, deeper nesting), is
    not modelled. The decoder yields a document or a failure.
- Cli.SetThenGet: holds only under the codec assumptions `RoundTrips` and
  `LoadsWf`.
- Process exit statuses are not modelled as integers. A `Miss` from `get`
  and a `Fail` from `list` are what exit 1. A `NoWrite` from `remove` is
  what exits 0.
- Printing is not modelled: `click.echo`, Python's rendering of a category
  printed by `get`, the newline `click.echo` adds when `download` writes to
  standard output, and the help text of the `cli` group.
- File handles are not modelled. `upload` takes the file's decoded text
  and `download` returns the text. The UTF-8 encoding and decoding of the
  file is not modelled.
- The `region` subcommand only prints `get_region()`. It is covered by
  `Regions.GetRegion` and `Regions.NoExplicitRegion`.
- `get_secret` and `put_secret` each resolve the region. A structured write
  resolves it twice. The model evaluates both against the same `Env`, so a
  metadata answer that changes between the two requests is not modelled.
- Concurrent writers are not modelled. Last write wins, and no code guards
  against a lost update.
- setup.py is packaging metadata and is not part of this model.
