# RIP daemon configuration reader, in Dafny

This project models the configuration reader of a RIPv2-style routing daemon,
`read_config_file` in `RIP_daemon.py`, and the two default lookups in `main`
that run on its result. It proves what the reader does with a configuration
file of any content.

The reader takes the lines of a file in order. Each line is stripped and split
on whitespace. A line with no tokens is skipped. A line whose first token is
`router-id` stores its second token, as text, under the key `router-id`. A
line whose first token is `input-ports` stores `int()` of every further token,
as a list, under the key `input-ports`. Every other line is ignored. A later
line overwrites what an earlier line with the same keyword stored. Two
failures escape the reader's handling of the lines: the `IndexError` of a `router-id` line with no
second token, and the `ValueError` of a token that `int()` rejects. `main`
then reads `router-id` with the default `"Not specified"` and `input-ports`
with the default `[]`.

Modules:

- `Wrappers` (Wrappers.dfy): `Option` and `Result`.
- `Strings` (Strings.dfy): Python's `str.strip()` and `str.split()` with no
  arguments, over every character Python's `str.isspace()` accepts. `Join`
  (words separated by one blank) is the reference inverse of `Split`.
- `Integers` (Integers.dfy): `int(token)` in base 10. That is an optional
  sign, then decimal digits, where one underscore may stand between two
  digits. `DecimalString` (Python's `str(n)`) is its reference inverse.
- `RipDaemon` (RipDaemon.dfy): the configuration as a map from key to
  `Value`. One pass of the loop body is `ApplyTokens`/`ApplyLine`. The whole
  loop is `ParseFrom`/`ReadConfig`. The imperative method `ReadConfigFile`
  has the source's loop and is proved equal to `ReadConfig`. `main`'s
  lookups are `RouterIdOrDefault` and `InputPortsOrDefault`.
- `ConfigProperties` (ConfigProperties.dfy): lemmas about single lines and
  about whole files.

The configuration is a `map<string, Value>`, like the Python dictionary.
`Value` is `Text(string)` for the router id or `Ports(seq<int>)` for the
port list. So the fact that only the two known keys appear, each with its
own kind of value, is proved (the contract of `ReadConfig`) rather than built into a
record type. An exception is `Err(MissingRouterId)` or
`Err(InvalidPort(token))`.

The reader checks no ranges and no `output-ports` entries, and in its
handling of the lines rejects nothing but a missing router id or a bad port
token. It keeps the router id
as unconverted text. It applies no range check to a port value
(`AnyPortsAccepted`). It ignores `output-ports` lines
(`OtherKeywordIgnored`).

## Model

| member | source | states |
|---|---|---|
| `Strings.Strip` | RIP_daemon.py:7 | the stripped line is a contiguous part of the line with only whitespace cut from both ends; it is empty exactly when the line is all whitespace, and otherwise starts and ends with a non-whitespace character |
| `Strings.Split` | RIP_daemon.py:8 | every token `split()` returns is non-empty and free of whitespace |
| `Strings.SplitSeparator` | RIP_daemon.py:8 | a run of any whitespace, of any kind and length, separates two tokens: the tokens of `a + w + b` are those of `a` followed by those of `b` |
| `Strings.SplitKeepsCharacters` | RIP_daemon.py:8 | the tokens put back together are exactly the line's non-whitespace characters, in order |
| `Strings.SplitJoin` | RIP_daemon.py:8 | splitting words joined by blanks gives back exactly those words |
| `Strings.BlankIffNoTokens` | RIP_daemon.py:8-10 | a line has no tokens exactly when it is empty or whitespace only |
| `Strings.SplitStrip` | RIP_daemon.py:7-8 | stripping before splitting does not change the tokens |
| `Integers.ParseInt` | RIP_daemon.py:15 | `int()` accepts a token exactly when it is a digit run (decimal digits, a single underscore only between two digits), or a `+` or `-` followed by one; an accepted token is non-empty, and a negative result comes from a leading minus |
| `Integers.SignAndZeros` | RIP_daemon.py:15 | a leading `+` and leading zeros leave the value unchanged, and a leading `-` negates it |
| `Integers.ParseDecimal` | RIP_daemon.py:15 | `int(str(n)) == n` for every integer `n`; the model's `int()` applies no range check to the value |
| `Integers.UnderscoreIgnored` | RIP_daemon.py:15 | an underscore between two digit runs is accepted and does not change the value |
| `RipDaemon.Tokens` | RIP_daemon.py:7-8 | every token of a stripped and split line is non-empty and free of whitespace; which tokens they are is stated by `Strings.SplitStrip`, `Strings.SplitSeparator` and `Strings.BlankIffNoTokens` |
| `RipDaemon.ParsePorts` | RIP_daemon.py:15 | the port list comprehension succeeds exactly when `int()` accepts every token; then it has one integer per token, in order, each `int()` of its token |
| `RipDaemon.ApplyTokens` | RIP_daemon.py:9-15 | one loop pass raises nothing exactly when its tokens are well formed (a value after `router-id`, only integers after `input-ports`), and it keeps the configuration to the two keys and their kinds of value |
| `RipDaemon.ApplyLine` | RIP_daemon.py:7-15 | one loop pass over a raw line raises nothing exactly when the line is well formed |
| `RipDaemon.ParseFrom` | RIP_daemon.py:6-15 | the loop from a configuration holding only the two keys with their kinds of value keeps it so; its errors and its result are stated by the `ConfigProperties` file lemmas |
| `RipDaemon.ReadConfig` | RIP_daemon.py:3-16 | a configuration read from any file holds at most the keys `router-id` (as text) and `input-ports` (as a list of integers) |
| `RipDaemon.RouterIdOrDefault` | RIP_daemon.py:26 | on such a configuration the router id `main` shows is text; which text is stated by `ConfigProperties.RouterIdShown` |
| `RipDaemon.InputPortsOrDefault` | RIP_daemon.py:27 | on such a configuration the ports `main` shows are a list; which list is stated by `ConfigProperties.InputPortsShown` |
| `RipDaemon.ReadConfigFile` | RIP_daemon.py:3-16 | the loop over the lines returns exactly the configuration, or raises exactly the error, that `ReadConfig` defines |
| `ConfigProperties.BlankLineSkipped` | RIP_daemon.py:9-10 | an empty or whitespace-only line leaves the configuration unchanged |
| `ConfigProperties.BlankLineIgnored` | RIP_daemon.py:6-10 | inserting an empty or whitespace-only line anywhere in a file does not change the result |
| `ConfigProperties.RouterIdLine` | RIP_daemon.py:12-13 | a `router-id` line stores its second token exactly as written, as text, and ignores any later tokens |
| `ConfigProperties.RouterIdWithoutValue` | RIP_daemon.py:13 | a `router-id` line with no second token raises the index error and does not fall back to a default |
| `ConfigProperties.InputPortsLine` | RIP_daemon.py:14-15 | an `input-ports` line stores one integer per further token, in order, each `int()` of its token; with no further token it stores the empty list; nothing else changes |
| `ConfigProperties.AnyPortsAccepted` | RIP_daemon.py:15 | an `input-ports` line listing any integers, negative or above 65535 included, stores exactly those integers: there is no range check on the value; such a line exists for every list of integers |
| `ConfigProperties.FirstBadPort` | RIP_daemon.py:15 | the comprehension raises the value error of the first token `int()` rejects |
| `ConfigProperties.BadPortRejectsLine` | RIP_daemon.py:14-15 | an `input-ports` line with a token `int()` rejects raises the value error of the first such token |
| `ConfigProperties.OtherKeywordIgnored` | RIP_daemon.py:12-15 | a line whose first token is neither keyword leaves the configuration unchanged |
| `ConfigProperties.LineErrorIndependent` | RIP_daemon.py:12-15 | whether and how a line fails does not depend on the lines before it |
| `ConfigProperties.ReadConfigOkIff` | RIP_daemon.py:6-15 | a file is read without an exception exactly when every one of its lines is well formed |
| `ConfigProperties.FirstMalformedLineDecides` | RIP_daemon.py:6-16 | a file with a malformed line fails with the error of its first malformed line, and the lines after it play no part |
| `ConfigProperties.NeverSet` | RIP_daemon.py:4-16 | a key with no line for its keyword is absent from the result |
| `ConfigProperties.LastLineWins` | RIP_daemon.py:6-15 | the result's entry for a keyword is exactly what the last line for that keyword gives on its own, whatever lines for either keyword come earlier and for the other keyword later |
| `ConfigProperties.RouterIdOfLastLine` | RIP_daemon.py:13 | the stored router id is the second token of the last `router-id` line |
| `ConfigProperties.InputPortsOfLastLine` | RIP_daemon.py:15 | the stored port list holds the integer value of each further token of the last `input-ports` line, in order |
| `ConfigProperties.DefaultIsNoToken` | RIP_daemon.py:26 | the default `"Not specified"` contains a blank, so it is not a token any line can supply |
| `ConfigProperties.RouterIdShown` | RIP_daemon.py:26 | `main`'s router id is always text; it is `"Not specified"` exactly when the file has no `router-id` line, and otherwise the second token of the last such line |
| `ConfigProperties.InputPortsShown` | RIP_daemon.py:27 | `main`'s port list is always a list; it is empty when the file has no `input-ports` line, and when it has one, it is empty exactly when the last such line lists nothing |

## Left out

- Opening and iterating the file (RIP_daemon.py:5-6) is I/O. The file is given as its sequence of lines, and newline translation when reading is not modelled.
- In `main`, the argument count check, `sys.exit` and the two `print` calls (RIP_daemon.py:19-30) are process and console plumbing. Only the two `.get` lookups are modelled.
- `Integers.ParseInt`: accepts only ASCII digits. Python's `int()` also accepts other Unicode decimal digits. Surrounding whitespace, which `int()` would also accept, cannot occur in a token.
- `Integers.ParseInt`: puts no limit on the number of digits. By default, Python 3.11 and later (and the 3.10.7 and 3.9.14 backports) raise `ValueError` from `int()` on a base-10 string of more than 4300 digits, and from `str(n)` past the same size. On those versions an `input-ports` token that long makes the reader raise where the model returns a value. So `Integers.ParseDecimal` and `ConfigProperties.AnyPortsAccepted` describe Python only for integers of at most 4300 digits.
- The insertion order of the Python dictionary is not modelled. A Dafny `map` has no order, and nothing in the reader depends on it.
- The routing engine that the test files import (a `Router` class, route calculation, packet construction, timers) is not defined in RIP_daemon.py. It is not part of this model.
- PDF_printer.py (report generation through a PDF library and directory walking) is not part of this model.
