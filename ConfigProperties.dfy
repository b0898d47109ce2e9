/** What `read_config_file` and `main`'s defaults promise about a whole
    configuration file. */
module ConfigProperties {
  import opened Wrappers
  import opened Strings
  import opened Integers
  import opened RipDaemon

  /** Line `k` is the last line of `lines` whose first token is `keyword`. */
  predicate IsLastLine(lines: seq<string>, keyword: string, k: int) {
    && 0 <= k < |lines|
    && StartsWith(lines[k], keyword)
    && forall j :: k < j < |lines| ==> !StartsWith(lines[j], keyword)
  }

  predicate NoLine(lines: seq<string>, keyword: string) {
    forall j :: 0 <= j < |lines| ==> !StartsWith(lines[j], keyword)
  }

  // ---------------------------------------------------------------- one line

  /** A blank or whitespace-only line leaves the configuration as it is. */
  lemma BlankLineSkipped(config: Config, line: string)
    requires AllSpace(line)
    ensures ApplyLine(config, line) == Ok(config)
  {
    BlankIffNoTokens(line);
  }

  /** Both keywords are tokens. */
  lemma KeywordsAreWords()
    ensures IsWord(RouterIdKey) && IsWord(InputPortsKey)
  {
  }

  /** A line written as tokens separated by blanks is read as those tokens. */
  lemma JoinedLine(config: Config, parts: seq<string>)
    requires forall i :: 0 <= i < |parts| ==> IsWord(parts[i])
    ensures Tokens(Join(parts)) == parts
    ensures ApplyLine(config, Join(parts)) == ApplyTokens(config, parts)
  {
    SplitJoin(parts);
    SplitStrip(Join(parts));
  }

  /** `router-id v ...` stores `v` exactly as written, whatever follows it. */
  lemma RouterIdLine(config: Config, line: string)
    requires |Tokens(line)| >= 2 && Tokens(line)[0] == RouterIdKey
    ensures ApplyLine(config, line) == Ok(config[RouterIdKey := Text(Tokens(line)[1])])
  {
  }

  /** `router-id` with nothing after it raises the IndexError of `parts[1]`. */
  lemma RouterIdWithoutValue(config: Config, line: string)
    requires Tokens(line) == [RouterIdKey]
    ensures ApplyLine(config, line) == Err(MissingRouterId)
  {
  }

  /** An `input-ports` line stores the value of every further token, in
      order; with no further token, the empty list. */
  lemma InputPortsLine(config: Config, line: string)
    requires StartsWith(line, InputPortsKey) && WellFormedLine(line)
    ensures
      var parts := Tokens(line);
      && InputPortsKey in ApplyLine(config, line).value
      && ApplyLine(config, line).value == config[InputPortsKey := ApplyLine(config, line).value[InputPortsKey]]
      && ApplyLine(config, line).value[InputPortsKey].Ports?
      && var ports := ApplyLine(config, line).value[InputPortsKey].ports;
      && |ports| == |parts| - 1
      && forall i :: 0 <= i < |ports| ==> ParseInt(parts[i + 1]) == Some(ports[i])
  {
    var parts := Tokens(line);
    assert parts[0] != RouterIdKey;
    assert forall i :: 0 <= i < |parts| - 1 ==> parts[1..][i] == parts[i + 1];
  }

  /** A printed integer is a token. */
  lemma DecimalIsWord(n: int)
    ensures IsWord(DecimalString(n))
  {
    var s := DecimalString(n);
    ParseDecimal(n);
    forall i | 0 <= i < |s| ensures !IsSpace(s[i]) {
      assert IsDigit(s[i]) || s[i] == '_' || s[i] == '+' || s[i] == '-';
    }
  }

  /** Printed integers are tokens, and the comprehension reads them back. */
  lemma DecimalsParse(ports: seq<int>)
    ensures forall i :: 0 <= i < |ports| ==> IsWord(Decimals(ports)[i])
    ensures ParsePorts(Decimals(ports)) == Ok(ports)
  {
    var words := Decimals(ports);
    forall i | 0 <= i < |words| ensures IsWord(words[i]) && ParseInt(words[i]) == Some(ports[i]) {
      ParseDecimal(ports[i]);
      DecimalIsWord(ports[i]);
    }
    var r := ParsePorts(words);
    assert r.Ok?;
    assert r.value == ports;
  }

  /** `input-ports` followed by any integers, negative or above 65535
      included, stores exactly those integers: there is no range check on the
      value. Such a line exists: the printed integers after the keyword,
      separated by blanks. */
  lemma AnyPortsAccepted(config: Config, line: string, ports: seq<int>)
    requires Tokens(line) == [InputPortsKey] + Decimals(ports)
    ensures ApplyLine(config, line) == Ok(config[InputPortsKey := Ports(ports)])
    ensures Tokens(Join([InputPortsKey] + Decimals(ports))) == [InputPortsKey] + Decimals(ports)
  {
    var parts := [InputPortsKey] + Decimals(ports);
    assert parts[1..] == Decimals(ports);
    PortsLineWords(parts, ports);
    JoinedLine(config, parts);
    DecimalsParse(ports);
  }

  lemma PortsLineWords(parts: seq<string>, ports: seq<int>)
    requires |parts| >= 1 && parts[0] == InputPortsKey && parts[1..] == Decimals(ports)
    ensures forall i :: 0 <= i < |parts| ==> IsWord(parts[i])
  {
    DecimalsParse(ports);
    KeywordsAreWords();
    forall i | 0 <= i < |parts| ensures IsWord(parts[i]) {
      if i > 0 { assert parts[i] == parts[1..][i - 1]; }
    }
  }

  /** The comprehension stops at the first token `int()` rejects and raises
      its ValueError. */
  lemma {:induction false} FirstBadPort(tokens: seq<string>, k: nat)
    requires k < |tokens| && ParseInt(tokens[k]).None?
    requires forall j :: 0 <= j < k ==> ParseInt(tokens[j]).Some?
    ensures ParsePorts(tokens) == Err(InvalidPort(tokens[k]))
  {
    if k > 0 {
      assert ParseInt(tokens[0]).Some?;
      FirstBadPort(tokens[1..], k - 1);
    }
  }

  /** The first token on an `input-ports` line that `int()` rejects makes the
      whole line raise its ValueError. */
  lemma BadPortRejectsLine(config: Config, line: string, k: nat)
    requires StartsWith(line, InputPortsKey)
    requires 1 <= k < |Tokens(line)| && ParseInt(Tokens(line)[k]).None?
    requires forall j :: 1 <= j < k ==> ParseInt(Tokens(line)[j]).Some?
    ensures ApplyLine(config, line) == Err(InvalidPort(Tokens(line)[k]))
  {
    var parts := Tokens(line);
    assert parts[0] != RouterIdKey;
    FirstBadPort(parts[1..], k - 1);
  }

  /** A line whose first token is neither keyword, `output-ports` for one,
      changes nothing. */
  lemma OtherKeywordIgnored(config: Config, line: string)
    requires |Tokens(line)| > 0
    requires Tokens(line)[0] != RouterIdKey && Tokens(line)[0] != InputPortsKey
    ensures ApplyLine(config, line) == Ok(config)
  {
  }

  /** A line that raises, raises the same error whatever was read before. */
  lemma LineErrorIndependent(config: Config, line: string)
    requires ApplyLine(config, line).Err?
    ensures ApplyLine(config, line) == ApplyLine(map[], line)
  {
  }

  /** A line whose first token is not `keyword` leaves `keyword`'s entry alone. */
  lemma OtherLineKeeps(config: Config, line: string, keyword: string)
    requires keyword == RouterIdKey || keyword == InputPortsKey
    requires ApplyLine(config, line).Ok? && !StartsWith(line, keyword)
    ensures var next := ApplyLine(config, line).value;
      && (keyword in next <==> keyword in config)
      && (keyword in config ==> next[keyword] == config[keyword])
  {
  }

  /** A line whose first token is `keyword` sets `keyword`'s entry to the
      value that line gives on its own. */
  lemma KeywordLineSets(config: Config, line: string, keyword: string)
    requires keyword == RouterIdKey || keyword == InputPortsKey
    requires ApplyLine(config, line).Ok? && StartsWith(line, keyword)
    ensures var next := ApplyLine(config, line).value;
      && keyword in next
      && ApplyLine(map[], line) == Ok(map[keyword := next[keyword]])
  {
    assert RouterIdKey != InputPortsKey;
  }

  // -------------------------------------------------------------- whole file

  /** A file of one line gives what that line gives. */
  lemma SingleLine(config: Config, line: string)
    ensures ParseFrom(config, [line]) == ApplyLine(config, line)
  {
    assert [line][0] == line && [line][1..] == [];
  }

  lemma {:induction false} ParseFromOkIff(config: Config, lines: seq<string>)
    ensures ParseFrom(config, lines).Ok? <==> forall i :: 0 <= i < |lines| ==> WellFormedLine(lines[i])
    decreases |lines|
  {
    if lines != [] {
      if ApplyLine(config, lines[0]).Ok? {
        var rest := lines[1..];
        ParseFromOkIff(ApplyLine(config, lines[0]).value, rest);
        if forall i :: 0 <= i < |rest| ==> WellFormedLine(rest[i]) {
          forall i | 0 <= i < |lines| ensures WellFormedLine(lines[i]) {
            if i > 0 { assert lines[i] == rest[i - 1]; }
          }
        } else {
          var i :| 0 <= i < |rest| && !WellFormedLine(rest[i]);
          assert rest[i] == lines[i + 1];
        }
      }
    }
  }

  /** A file is read without an exception exactly when no line raises one. */
  lemma ReadConfigOkIff(lines: seq<string>)
    ensures ReadConfig(lines).Ok? <==> forall i :: 0 <= i < |lines| ==> WellFormedLine(lines[i])
  {
    ParseFromOkIff(map[], lines);
  }

  /** The loop goes on past a well-formed first line, from what that line
      gives. */
  lemma ParseStep(config: Config, lines: seq<string>) returns (next: Config)
    requires lines != [] && WellFormedLine(lines[0])
    ensures ApplyLine(config, lines[0]) == Ok(next)
    ensures ParseFrom(config, lines) == ParseFrom(next, lines[1..])
  {
    next := ApplyLine(config, lines[0]).value;
  }

  lemma {:induction false} ParseFromFirstError(config: Config, lines: seq<string>, k: nat)
    requires k < |lines| && !WellFormedLine(lines[k])
    requires forall j :: 0 <= j < k ==> WellFormedLine(lines[j])
    ensures ParseFrom(config, lines) == ApplyLine(map[], lines[k])
    decreases k
  {
    if k == 0 {
      LineErrorIndependent(config, lines[0]);
    } else {
      var next := ParseStep(config, lines);
      var rest := lines[1..];
      assert rest[k - 1] == lines[k];
      forall j | 0 <= j < k - 1 ensures WellFormedLine(rest[j]) {
        assert rest[j] == lines[j + 1];
      }
      ParseFromFirstError(next, rest, k - 1);
    }
  }

  /** The first malformed line decides the error; the lines after it are
      never looked at. */
  lemma FirstMalformedLineDecides(lines: seq<string>, k: nat)
    requires k < |lines| && !WellFormedLine(lines[k])
    requires forall j :: 0 <= j < k ==> WellFormedLine(lines[j])
    ensures ReadConfig(lines).Err?
    ensures ReadConfig(lines) == ReadConfig([lines[k]])
  {
    ParseFromFirstError(map[], lines, k);
    ParseFromFirstError(map[], [lines[k]], 0);
  }

  lemma {:induction false} ParseFromBlank(config: Config, before: seq<string>, blank: string, after: seq<string>)
    requires AllSpace(blank)
    ensures ParseFrom(config, before + [blank] + after) == ParseFrom(config, before + after)
    decreases |before|
  {
    if before == [] {
      assert before + [blank] + after == [blank] + after;
      assert ([blank] + after)[1..] == after == before + after;
      BlankLineSkipped(config, blank);
    } else {
      assert (before + [blank] + after)[0] == before[0] == (before + after)[0];
      assert (before + [blank] + after)[1..] == before[1..] + [blank] + after;
      assert (before + after)[1..] == before[1..] + after;
      if ApplyLine(config, before[0]).Ok? {
        ParseFromBlank(ApplyLine(config, before[0]).value, before[1..], blank, after);
      }
    }
  }

  /** Inserting an empty or whitespace-only line anywhere changes nothing. */
  lemma BlankLineIgnored(before: seq<string>, blank: string, after: seq<string>)
    requires AllSpace(blank)
    ensures ReadConfig(before + [blank] + after) == ReadConfig(before + after)
  {
    ParseFromBlank(map[], before, blank, after);
  }

  lemma {:induction false} ParseFromNoLine(config: Config, lines: seq<string>, keyword: string)
    requires keyword == RouterIdKey || keyword == InputPortsKey
    requires ParseFrom(config, lines).Ok? && NoLine(lines, keyword)
    ensures var final := ParseFrom(config, lines).value;
      && (keyword in final <==> keyword in config)
      && (keyword in config ==> final[keyword] == config[keyword])
    decreases |lines|
  {
    if lines != [] {
      OtherLineKeeps(config, lines[0], keyword);
      forall j | 0 <= j < |lines| - 1 ensures !StartsWith(lines[1..][j], keyword) {
        assert lines[1..][j] == lines[j + 1];
      }
      ParseFromNoLine(ApplyLine(config, lines[0]).value, lines[1..], keyword);
    }
  }

  /** Without a line for `keyword` the result has no entry for it. */
  lemma NeverSet(lines: seq<string>, keyword: string)
    requires keyword == RouterIdKey || keyword == InputPortsKey
    requires ReadConfig(lines).Ok? && NoLine(lines, keyword)
    ensures keyword !in ReadConfig(lines).value
  {
    ParseFromNoLine(map[], lines, keyword);
  }

  lemma {:induction false} ParseFromLastWins(config: Config, lines: seq<string>, keyword: string, k: int)
    requires keyword == RouterIdKey || keyword == InputPortsKey
    requires ParseFrom(config, lines).Ok? && IsLastLine(lines, keyword, k)
    ensures var final := ParseFrom(config, lines).value;
      && keyword in final
      && ApplyLine(map[], lines[k]) == Ok(map[keyword := final[keyword]])
    decreases |lines|
  {
    var next := ApplyLine(config, lines[0]).value;
    if k == 0 {
      KeywordLineSets(config, lines[0], keyword);
      forall j | 0 <= j < |lines| - 1 ensures !StartsWith(lines[1..][j], keyword) {
        assert lines[1..][j] == lines[j + 1];
      }
      ParseFromNoLine(next, lines[1..], keyword);
    } else {
      forall j | k - 1 < j < |lines| - 1 ensures !StartsWith(lines[1..][j], keyword) {
        assert lines[1..][j] == lines[j + 1];
      }
      assert lines[1..][k - 1] == lines[k];
      ParseFromLastWins(next, lines[1..], keyword, k - 1);
    }
  }

  /** The last line for `keyword` wins: the result's entry for it is exactly
      what that line would give in a file of its own, whatever lines for
      either keyword came before it and whatever lines for the other
      keyword come after it. */
  lemma LastLineWins(lines: seq<string>, keyword: string, k: int)
    requires keyword == RouterIdKey || keyword == InputPortsKey
    requires ReadConfig(lines).Ok? && IsLastLine(lines, keyword, k)
    ensures keyword in ReadConfig(lines).value
    ensures ReadConfig([lines[k]]) == Ok(map[keyword := ReadConfig(lines).value[keyword]])
  {
    ParseFromLastWins(map[], lines, keyword, k);
    SingleLine(map[], lines[k]);
  }

  lemma {:induction false} LastLineExists(lines: seq<string>, keyword: string, i: int)
    requires 0 <= i < |lines| && StartsWith(lines[i], keyword)
    ensures exists k :: IsLastLine(lines, keyword, k)
    decreases |lines| - i
  {
    if !IsLastLine(lines, keyword, i) {
      var j :| i < j < |lines| && StartsWith(lines[j], keyword);
      LastLineExists(lines, keyword, j);
    }
  }

  // ------------------------------------------------------------ main's view

  /** The entry the last `router-id` line leaves is its second token. */
  lemma RouterIdOfLastLine(lines: seq<string>, k: int)
    requires ReadConfig(lines).Ok? && IsLastLine(lines, RouterIdKey, k)
    ensures |Tokens(lines[k])| >= 2
    ensures RouterIdOrDefault(ReadConfig(lines).value) == Text(Tokens(lines[k])[1])
  {
    LastLineWins(lines, RouterIdKey, k);
    var v := ReadConfig(lines).value[RouterIdKey];
    SingleLine(map[], lines[k]);
    var m := ApplyTokens(map[], Tokens(lines[k])).value;
    assert m == map[RouterIdKey := v];
    assert m[RouterIdKey] == v;
  }

  /** "Not specified" holds a blank, so no `router-id` line can give it. */
  lemma DefaultIsNoToken()
    ensures !IsWord(RouterIdDefault)
  {
    assert IsSpace(RouterIdDefault[3]);
  }

  /** What `main` shows for the router id: the id of the last `router-id`
      line as written, or "Not specified" exactly when there is none. */
  lemma RouterIdShown(lines: seq<string>)
    requires ReadConfig(lines).Ok?
    ensures var shown := RouterIdOrDefault(ReadConfig(lines).value);
      && shown.Text?
      && (shown == Text(RouterIdDefault) <==> NoLine(lines, RouterIdKey))
      && forall k :: IsLastLine(lines, RouterIdKey, k) ==>
           |Tokens(lines[k])| >= 2 && shown == Text(Tokens(lines[k])[1])
  {
    var c := ReadConfig(lines).value;
    if NoLine(lines, RouterIdKey) {
      NeverSet(lines, RouterIdKey);
    } else {
      var i :| 0 <= i < |lines| && StartsWith(lines[i], RouterIdKey);
      LastLineExists(lines, RouterIdKey, i);
      var k :| IsLastLine(lines, RouterIdKey, k);
      RouterIdOfLastLine(lines, k);
      DefaultIsNoToken();
    }
    forall k | IsLastLine(lines, RouterIdKey, k)
      ensures |Tokens(lines[k])| >= 2 && RouterIdOrDefault(c) == Text(Tokens(lines[k])[1])
    {
      RouterIdOfLastLine(lines, k);
    }
  }

  /** The entry the last `input-ports` line leaves holds the value of each of
      its further tokens. */
  lemma InputPortsOfLastLine(lines: seq<string>, k: int)
    requires ReadConfig(lines).Ok? && IsLastLine(lines, InputPortsKey, k)
    ensures var shown := InputPortsOrDefault(ReadConfig(lines).value);
      && shown.Ports?
      && |shown.ports| == |Tokens(lines[k])| - 1
      && forall i :: 0 <= i < |shown.ports| ==> ParseInt(Tokens(lines[k])[i + 1]) == Some(shown.ports[i])
  {
    LastLineWins(lines, InputPortsKey, k);
    var v := ReadConfig(lines).value[InputPortsKey];
    SingleLine(map[], lines[k]);
    ReadConfigOkIff(lines);
    InputPortsLine(map[], lines[k]);
    var m := ApplyLine(map[], lines[k]).value;
    assert m == map[InputPortsKey := v];
    assert m[InputPortsKey] == v;
  }

  /** What `main` shows for the input ports: those of the last `input-ports`
      line, or the empty list when there is none or that line lists none. */
  lemma InputPortsShown(lines: seq<string>)
    requires ReadConfig(lines).Ok?
    ensures var shown := InputPortsOrDefault(ReadConfig(lines).value);
      && shown.Ports?
      && (NoLine(lines, InputPortsKey) ==> shown == Ports([]))
      && forall k :: IsLastLine(lines, InputPortsKey, k) ==> (shown == Ports([]) <==> |Tokens(lines[k])| == 1)
  {
    var c := ReadConfig(lines).value;
    if NoLine(lines, InputPortsKey) {
      NeverSet(lines, InputPortsKey);
    }
    forall k | IsLastLine(lines, InputPortsKey, k)
      ensures InputPortsOrDefault(c) == Ports([]) <==> |Tokens(lines[k])| == 1
    {
      InputPortsOfLastLine(lines, k);
    }
  }
}
