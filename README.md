# White Angel OSINT investigator — Dafny model

This project models the logic of the `WhiteAngel` class in `white_angel.py`,
a command-line OSINT helper. The class holds a session id and a list of lookup
records that grows in place. Each lookup method works on one kind of target:

- **`check_phone`** cleans the number to its digits and `+` signs. It guesses the
  country from the dialling prefix and builds messenger links.
- **`check_email`** tests the address against a regular expression and splits it
  at its `@`. It builds profile links from the local part.
- **`search_username`** probes seven profile URLs and keeps, in order, those that
  answered with a status below 400.
- **`check_ip`** asks ip-api.com and records the reply only when its `status` is
  `success`.
- **`save_report`** writes the session to a JSON file. It uses a default file name
  when none is given.

`main` decides from its flags which lookups run, when the interactive menu starts
and when the report is saved automatically.

Layout, one module per concern:

- `wrappers.dfy`: `Option`, for Python's `None`.
- `sequences.dfy`: the library behaviour the code relies on.
  - Filtering a string character by character (`Keep`), with its lemmas.
  - The subsequence relation.
  - `str.split` / `str.join` with a one-character separator.
- `phone.dfy`: phone cleaning and `_detect_country`.
  - The if-chain is modelled as written.
  - It is also modelled as an ordered rule table with first-match semantics, and a lemma connects the two.
- `email.dfy`: the email regular expression in two forms, proved to accept the same strings.
  - A declarative form: an `@` and a `.` placed so that each piece matches its character class.
  - A hand-written decision procedure.
  - Also the `split('@')` into local part and domain.
- `username.dfy`: the platform table, the probe outcomes, the order-preserving selection of found profiles, and the probing loop.
- `session.dfy`: the records and the `WhiteAngel` class.
  - `results` is a `seq` field that the lookup methods reassign.
  - `Valid()` says that every record is well formed for its kind.
- `cli.dfy`: the flag logic of `main`, the flag-driven batch of lookups followed by `--save`, and the whole of `main` with the menu and the automatic save (`Cli.RunCommandLine`).
  - `Cli.UsernameAndSaveScenario` is a client of these contracts. It runs the whole of `main` and shows that `--username testuser123 --save out.json` skips the menu, writes `out.json` with exactly one `username` record for `testuser123`, and saves nothing automatically.

External effects become parameters that stand for their outcomes:

- `Fetch` is the JSON object from ip-api.com, or any exception.
- `Probe` is the status code of one HEAD request, or any exception. There is one probe per platform, in probing order.
- `writeSucceeds` is the outcome of `open`/`json.dump`.
- `now` stands for a `datetime.now().isoformat()` timestamp.
- The constructor's `sessionId` parameter stands for the formatted start time.

Python's regular expression `$`, used without MULTILINE, also matches just before
one final newline. The model includes this:

- `IsValidEmail` accepts `addr + "\n"` for every address `addr` the pattern body matches (one not already ending in a newline), and the domain that `split('@')` returns then keeps the newline (`Email.TrailingNewlineAccepted`).
- The interactive menu strips its input, so only command-line input can reach this case. The CLI model (`Cli.RunArguments`) passes the flag value unchanged, as `main` does.

Two behaviours of the code a reader may not expect. The model keeps both:

- Cleaning keeps every `+`, not only a leading one (`Phone.CleanKeepsPhoneChars`).
- The country test for Kazakhstan comes after the test for Russia and implies it, so it can never decide. `_detect_country` therefore never returns `KZ` (`Phone.KazakhstanNeverDetected`). The model keeps the code's order.

## Model

| member | source | states |
|---|---|---|
| Phone.Clean | white_angel.py:94 | the cleaned number is no longer than the input and holds only ASCII digits and `+` |
| Phone.CleanConcat | white_angel.py:94 | cleaning distributes over concatenation (it decides character by character, keeping order); the empty string cleans to itself |
| Phone.CleanIsSubsequence | white_angel.py:94 | the cleaned number is a subsequence of the raw input |
| Phone.CleanKeepsPhoneChars | white_angel.py:94 | every occurrence of every digit and of `+` survives cleaning, so every `+` is kept and not only a leading one |
| Phone.CleanIdempotent | white_angel.py:94 | cleaning a cleaned number changes nothing |
| Phone.StripPlus | white_angel.py:273 | `replace('+', '')` leaves no `+` and is no longer than its input |
| Phone.StripPlusKeepsOthers | white_angel.py:273 | `replace('+', '')` keeps the count of every character other than `+`, in the input's order |
| Phone.FirstMatch | white_angel.py:275-308 | the index returned is that of a rule that fires with no earlier rule firing; `None` only when no rule fires |
| Phone.DetectCountryFollowsRules | white_angel.py:271-308 | the if-chain equals first-match classification by the ordered table RU "7", UA "380", BY "375", KZ "7" with 11 digits, applied to the input without its `+` signs |
| Phone.ShadowedRuleNeverFires | white_angel.py:276-302 | a rule whose condition implies an earlier rule's condition is never the first match |
| Phone.KazakhstanNeverDetected | white_angel.py:276-302 | `_detect_country` never returns Kazakhstan / code KZ |
| Phone.DetectCountryCases | white_angel.py:273-308 | RU iff the digits start with 7 (any length); UA iff they start with 380; BY iff 375; XX iff none of these |
| Phone.DetectCountryIgnoresPlus | white_angel.py:273 | inserting a `+` anywhere does not change the country |
| Phone.RussiaAnyLength | white_angel.py:276-281 | `7…` and `+7…` are RU whatever their length |
| Phone.EmptyIsUnknown | white_angel.py:303-308 | the empty string and a lone `+` give XX |
| Phone.ExampleNumberIsRussian | white_angel.py:276-302 | `+79991234567` (11 digits) is RU, not KZ |
| Sequences.SplitPieces | white_angel.py:147 | `split(sep)` returns one more piece than there are separators, none containing the separator |
| Sequences.SplitJoin | white_angel.py:147 | joining the pieces of `split(sep)` with the separator gives back the input |
| Sequences.SplitAtOnly | white_angel.py:147 | a string with exactly one separator at index i splits into the part before i and the part after it |
| Email.EmailBodyMatchesPattern | white_angel.py:140 | the hand-written test (first `@`, local class, domain class, last `.` with a prefix before it and at least 2 letters after it) accepts exactly the strings the pattern body matches |
| Email.ValidEmailMatchesRegex | white_angel.py:140 | `IsValidEmail` accepts exactly what `re.match` with `^…$` accepts, including a single trailing newline |
| Email.SplitValidEmail | white_angel.py:140-147 | an accepted address has exactly one `@`; `split('@')` yields two pieces, so the unpacking cannot fail; the local part is a non-empty run of local characters and the domain is valid (plus the tolerated newline) |
| Email.SplitEmail | white_angel.py:147 | the local part and domain recompose the address around one `@` and contain no `@` |
| Email.TrailingNewlineAccepted | white_angel.py:140-147 | every address the pattern body matches (one not already ending in a newline), followed by `\n`, is accepted, with the same local part and a domain ending in `\n`; a second `\n` is refused |
| Email.UserAtExample | white_angel.py:140-149 | `user@example.com` is accepted and splits into `user` and `example.com` |
| Email.NoDotRefused | white_angel.py:140-142 | an address without a `.` is refused |
| Email.TwoAtSignsRefused | white_angel.py:140-142 | an address with two `@` is refused |
| Username.Select | white_angel.py:207-219 | the found list is no longer than the platform list |
| Username.CollectFound | white_angel.py:207-219 | the probing loop builds exactly the order-preserving selection of the platforms whose probe returned a status below 400 |
| Username.SelectIsSubsequence | white_angel.py:207-219 | the found list is a subsequence of the platform list, in probing order |
| Username.SelectMembership | white_angel.py:210-219 | a profile is found iff it is a platform entry whose probe returned a status below 400 (a status of 400 or more and an exception both exclude it) |
| Username.SelectExtremes | white_angel.py:210-219 | all probes succeeding finds every platform; none succeeding finds none |
| Username.FoundProfiles | white_angel.py:197-219 | at most 7 profiles are found, each a platform name with its prefix followed by the username |
| Session.ReportName | white_angel.py:252-253 | the file name is never empty; a truthy name is used as given; `None` or `""` gives `white_angel_report_<session>.json` |
| Session.WhiteAngel.constructor | white_angel.py:27-31 | a new session has version 3.0, the given session id and no records |
| Session.WhiteAngel.CheckIp | white_angel.py:54-87 | one `ip` record is appended and the data returned exactly when the reply is an object whose `status` is `success`; otherwise `None` and the records are unchanged |
| Session.WhiteAngel.CheckPhone | white_angel.py:89-133 | exactly one `phone` record (raw target, cleaned number, detected country) is appended, earlier records kept; the links are `https://wa.me/`, `https://t.me/`, `https://vk.com/phone/` followed by the cleaned number |
| Session.WhiteAngel.CheckEmail | white_angel.py:135-190 | `None` with records unchanged iff the format test fails; otherwise one `email` record whose local part and domain recompose the address, and links to vk.com, t.me and github.com followed by the local part |
| Session.WhiteAngel.SearchUsername | white_angel.py:192-244 | exactly one `username` record is appended whatever was found, holding the ordered selection of reached platforms |
| Session.WhiteAngel.SaveReport | white_angel.py:246-269 | no records: no write and `None`; otherwise the whole record list is written under the given or default name, and that name is returned iff the write succeeds; every record written carries the guarantee of the lookup that appended it; the records are never modified |
| Cli.SaveAloneSkipsMenu | white_angel.py:383-392 | a bare `--save NAME` skips the menu and, on a fresh session, does not save automatically |
| Cli.RunArguments | white_angel.py:373-384 | truthy lookup flags append their records in the order ip, phone, email, username; a truthy `--save` then writes all records under that name, or nothing if there are none |
| Cli.RunCommandLine | white_angel.py:373-400 | after the flag batch, the menu's records are appended only when the menu runs; a truthy `--save` writes exactly when some record exists after the flag batch, under that name, with exactly those records; at most one of the `--save` write and the automatic write happens, so records the menu adds after `--save NAME -i` reach no automatic file; when the menu is left by an interrupt or end of input, no automatic save happens; otherwise, without a truthy `--save` and with some record, every record is saved under the default name |

## Left out

- Printing and the banner: console output only, with no effect on state.
- The `if ip:`/`if phone:` guards and `.strip()` calls of `run_interactive`, and the menu loop itself: they belong to interactive console input.
- `argparse` parsing: the model starts from the parsed flags (`Cli.Arguments`).
- The process-level `KeyboardInterrupt`/exception handler: process plumbing.
- The HTTP requests themselves, with their timeouts and `User-Agent`: replaced by the `Fetch` and `Probe` outcome parameters.
- `socket.gethostbyname`: it only prints a warning and never changes the record or the result.
- `urllib.parse.quote` and the Google and Have I Been Pwned links: these are only printed.
- JSON serialisation and the file write: the write is modelled as the `FileWrite` it attempts plus a success flag. The JSON round-trip is not modelled.
- `datetime.now()`: every timestamp is a string parameter. `Cli.RunArguments` and `Cli.RunCommandLine` use one `now` for all records of a batch and for the report, where the source reads the clock once per record and once per save.
- Session.WhiteAngel.SearchUsername: requires one probe outcome per platform. This is the shape of the outcome parameter, not a demand of the source.
- Cli.RunCommandLine: represents the interactive menu by the well-formed records its lookups append (`menuRecords`) and by whether it returns through choice '6' (`menuReturns`); the menu's own save (choice 5) is not modelled, so the method does not cover files written from inside the menu.
- Non-object JSON replies to `check_ip`, such as a list, raise inside the `try` and are folded into `Failed`.
