/** The WORKSPACES setting: comma-separated `name:path` pairs parsed into a name-to-path map. */
module Workspaces {
  import opened Wrappers
  import opened Strings

  /** Why a pair was refused; each carries the pair exactly as it appeared between the commas. */
  datatype ParseError =
    | MissingColon(pair: string)
    | EmptyPart(pair: string)

  function ParseErrorText(e: ParseError): string {
    match e
    case MissingColon(pair) => "invalid workspace format: " + pair + " (expected 'name:/path')"
    case EmptyPart(pair) => "workspace name and path cannot be empty: " + pair
  }

  /** A name and a path as the parser produces them: non-empty, trimmed, the name free of colons. */
  predicate IsEntry(name: string, path: string) {
    && name != "" && !IsSpace(name[0]) && !IsSpace(name[|name| - 1])
    && path != "" && !IsSpace(path[0]) && !IsSpace(path[|path| - 1])
    && ':' !in name
  }

  /** One pair: trimmed, cut at its first colon, both halves trimmed again and required non-empty. */
  function ParsePair(pair: string): (r: Result<(string, string), ParseError>)
    ensures r.Failure? ==> r.error.pair == pair
    ensures r == Failure(MissingColon(pair)) <==> ':' !in pair
    ensures r.Success? ==> IsEntry(r.value.0, r.value.1)
  {
    var parts := SplitFirst(TrimSpace(pair), ':');
    TrimSpaceKeeps(pair, ':');
    if |parts| != 2 then Failure(MissingColon(pair))
    else
      var name := TrimSpace(parts[0]);
      var path := TrimSpace(parts[1]);
      if name == "" || path == "" then Failure(EmptyPart(pair))
      else
        TrimSpaceKeeps(parts[0], ':');
        Success((name, path))
  }

  /**
    A pair with a colon is read at its first colon: it parses exactly when neither side is all
    spaces, into the two sides trimmed; otherwise it is an empty part.
   */
  lemma ParsePairHalves(pair: string, i: nat)
    requires i < |pair| && pair[i] == ':' && ':' !in pair[..i]
    ensures ParsePair(pair).Success? <==> !AllSpace(pair[..i]) && !AllSpace(pair[i + 1..])
    ensures ParsePair(pair).Success? ==> ParsePair(pair).value == (TrimSpace(pair[..i]), TrimSpace(pair[i + 1..]))
    ensures ParsePair(pair).Failure? ==> ParsePair(pair).error == EmptyPart(pair)
  {
    TrimThenCut(pair, ':', i);
    TrimSpaceEmpty(pair[..i]);
    TrimSpaceEmpty(pair[i + 1..]);
  }

  /** Index of the first failure among results. */
  function FirstFailure<T, E>(rs: seq<Result<T, E>>): (i: nat)
    requires exists k :: 0 <= k < |rs| && rs[k].Failure?
    ensures i < |rs| && rs[i].Failure?
    ensures forall j :: 0 <= j < i ==> rs[j].Success?
  {
    if rs[0].Failure? then 0
    else
      var k :| 0 <= k < |rs| && rs[k].Failure?;
      assert rs[1..][k - 1].Failure?;
      1 + FirstFailure(rs[1..])
  }

  /** All the values when every result succeeded; otherwise the first error, the later results unseen. */
  function Collect<T, E>(rs: seq<Result<T, E>>): (r: Result<seq<T>, E>)
    ensures r.Success? <==> forall i :: 0 <= i < |rs| ==> rs[i].Success?
    ensures r.Success? ==> |r.value| == |rs| && forall i :: 0 <= i < |rs| ==> r.value[i] == rs[i].value
    ensures r.Failure? ==> exists k :: 0 <= k < |rs| && rs[k].Failure?
    ensures r.Failure? ==> r.error == rs[FirstFailure(rs)].error
  {
    if rs == [] then Success([])
    else if rs[0].Failure? then Failure(rs[0].error)
    else
      var rest := Collect(rs[1..]);
      if rest.Failure? then
        assert rs[1..][FirstFailure(rs[1..])].Failure?;
        Failure(rest.error)
      else
        Success([rs[0].value] + rest.value)
  }

  /** The comma-separated pairs of a non-empty setting, each parsed on its own. */
  function PairResults(spec: string): (rs: seq<Result<(string, string), ParseError>>)
    ensures |rs| == |Split(spec, ',')|
    ensures forall i :: 0 <= i < |rs| ==> rs[i] == ParsePair(Split(spec, ',')[i])
  {
    var pairs := Split(spec, ',');
    seq(|pairs|, i requires 0 <= i < |pairs| => ParsePair(pairs[i]))
  }

  /** The names the entries carry. */
  function Names(entries: seq<(string, string)>): (names: set<string>)
    ensures forall i :: 0 <= i < |entries| ==> entries[i].0 in names
    ensures forall name :: name in names ==> exists i :: 0 <= i < |entries| && entries[i].0 == name
  {
    if entries == [] then {}
    else
      var init := Names(entries[..|entries| - 1]);
      assert forall i :: 0 <= i < |entries| - 1 ==> entries[..|entries| - 1][i] == entries[i];
      init + {entries[|entries| - 1].0}
  }

  /** The entries inserted in order into an empty map: a later name overwrites an earlier one. */
  function ToMap(entries: seq<(string, string)>): (m: map<string, string>)
    ensures m.Keys == Names(entries)
    ensures forall i :: 0 <= i < |entries| && IsLastWithName(entries, i) ==> m[entries[i].0] == entries[i].1
  {
    if entries == [] then map[]
    else
      var init := entries[..|entries| - 1];
      var last := entries[|entries| - 1];
      var m := ToMap(init)[last.0 := last.1];
      assert forall i :: 0 <= i < |entries| - 1 && IsLastWithName(entries, i) ==> IsLastWithName(init, i);
      m
  }

  /** No later entry carries the same name as entry `i`. */
  predicate IsLastWithName(entries: seq<(string, string)>, i: nat)
    requires i < |entries|
  {
    forall j :: i < j < |entries| ==> entries[j].0 != entries[i].0
  }

  /** `parseWorkspaces`: the empty setting is the empty map; otherwise every pair must parse. */
  function ParseWorkspaces(spec: string): (r: Result<map<string, string>, ParseError>)
    ensures spec == "" ==> r == Success(map[])
    ensures r.Success? ==> forall name :: name in r.value ==> IsEntry(name, r.value[name])
    ensures r.Failure? ==> spec != "" && Collect(PairResults(spec)) == Failure(r.error)
  {
    if spec == "" then Success(map[])
    else
      var rs := PairResults(spec);
      match Collect(rs)
      case Failure(e) => Failure(e)
      case Success(entries) =>
        var m := ToMap(entries);
        forall name | name in m
          ensures IsEntry(name, m[name])
        {
          var i :| 0 <= i < |entries| && entries[i].0 == name;
          var k := LastWithName(entries, i);
          assert rs[k].Success?;
        }
        Success(m)
  }

  /** The index of the last entry carrying the same name as entry `i`. */
  function LastWithName(entries: seq<(string, string)>, i: nat): (k: nat)
    requires i < |entries|
    ensures i <= k < |entries| && entries[k].0 == entries[i].0 && IsLastWithName(entries, k)
    decreases |entries| - i
  {
    if exists j :: i < j < |entries| && entries[j].0 == entries[i].0 then
      var j :| i < j < |entries| && entries[j].0 == entries[i].0;
      LastWithName(entries, j)
    else i
  }

  /** The setting a list of entries is written as: `name:path` pairs joined by commas. */
  function Format(entries: seq<(string, string)>): string
    requires |entries| >= 1
  {
    Join(FormatPairs(entries), ',')
  }

  function FormatPairs(entries: seq<(string, string)>): (pairs: seq<string>)
    ensures |pairs| == |entries|
    ensures forall i :: 0 <= i < |entries| ==> pairs[i] == entries[i].0 + [':'] + entries[i].1
  {
    if entries == [] then [] else [entries[0].0 + [':'] + entries[0].1] + FormatPairs(entries[1..])
  }

  /** A well-formed pair reads back as its name and path, even when the path holds colons. */
  lemma ParsePairFormat(name: string, path: string)
    requires IsEntry(name, path)
    ensures ParsePair(name + [':'] + path) == Success((name, path))
  {
    var pair := name + [':'] + path;
    assert pair[0] == name[0] && pair[|pair| - 1] == path[|path| - 1];
    TrimmedWhenEndsNotSpace(pair);
    TrimmedWhenEndsNotSpace(name);
    TrimmedWhenEndsNotSpace(path);
    assert pair[|name|] == ':' && pair[..|name|] == name;
    IndexOfFirst(pair, ':', |name|);
    assert pair[|name| + 1..] == path;
  }

  /**
    Writing entries out and parsing them back gives the map that inserts them in order,
    provided every name and path is well formed and free of commas.
   */
  lemma {:induction false} ParseFormat(entries: seq<(string, string)>)
    requires |entries| >= 1
    requires forall i :: 0 <= i < |entries| ==> IsEntry(entries[i].0, entries[i].1)
    requires forall i :: 0 <= i < |entries| ==> ',' !in entries[i].0 && ',' !in entries[i].1
    ensures ParseWorkspaces(Format(entries)) == Success(ToMap(entries))
  {
    FormatSplits(entries);
    CollectSuccesses(PairResults(Format(entries)), entries);
    ParseOfCollected(Format(entries), entries);
  }

  /** The written setting is non-empty and splits back into its pairs, each of which parses to its entry. */
  lemma FormatSplits(entries: seq<(string, string)>)
    requires |entries| >= 1
    requires forall i :: 0 <= i < |entries| ==> IsEntry(entries[i].0, entries[i].1)
    requires forall i :: 0 <= i < |entries| ==> ',' !in entries[i].0 && ',' !in entries[i].1
    ensures Format(entries) != ""
    ensures Split(Format(entries), ',') == FormatPairs(entries)
    ensures |PairResults(Format(entries))| == |entries|
    ensures forall i :: 0 <= i < |entries| ==> PairResults(Format(entries))[i] == Success(entries[i])
  {
    var pairs := FormatPairs(entries);
    FormatPairsParse(entries);
    SplitJoin(pairs, ',');
    assert |pairs[0]| > 0;
    JoinStartsWithFirst(pairs, ',');
  }

  lemma FormatPairsParse(entries: seq<(string, string)>)
    requires forall i :: 0 <= i < |entries| ==> IsEntry(entries[i].0, entries[i].1)
    requires forall i :: 0 <= i < |entries| ==> ',' !in entries[i].0 && ',' !in entries[i].1
    ensures forall i :: 0 <= i < |entries| ==> ',' !in FormatPairs(entries)[i]
    ensures forall i :: 0 <= i < |entries| ==> ParsePair(FormatPairs(entries)[i]) == Success(entries[i])
  {
    forall i | 0 <= i < |entries|
      ensures ',' !in FormatPairs(entries)[i]
      ensures ParsePair(FormatPairs(entries)[i]) == Success(entries[i])
    {
      var name := entries[i].0;
      var path := entries[i].1;
      assert FormatPairs(entries)[i] == name + [':'] + path;
      ParsePairFormat(name, path);
    }
  }

  /** A non-empty setting whose pairs all parse is their map. */
  lemma ParseOfCollected(spec: string, entries: seq<(string, string)>)
    requires spec != "" && Collect(PairResults(spec)) == Success(entries)
    ensures ParseWorkspaces(spec) == Success(ToMap(entries))
  {
  }

  lemma CollectSuccesses<T, E>(rs: seq<Result<T, E>>, vs: seq<T>)
    requires |rs| == |vs|
    requires forall i :: 0 <= i < |rs| ==> rs[i] == Success(vs[i])
    ensures Collect(rs) == Success(vs)
  {
    var c := Collect(rs);
    assert c.Success?;
    assert c.value == vs;
  }

  lemma JoinStartsWithFirst(parts: seq<string>, sep: char)
    requires |parts| >= 1
    ensures |Join(parts, sep)| >= |parts[0]|
  {
  }

  /** A trailing comma leaves an empty last pair, and the whole setting is refused. */
  lemma TrailingCommaRejected(spec: string)
    requires spec != [] && spec[|spec| - 1] == ','
    ensures ParseWorkspaces(spec).Failure?
  {
    SplitTrailing(spec, ',');
    var pairs := Split(spec, ',');
    var last := pairs[|pairs| - 1];
    assert ':' !in last;
    var rs := PairResults(spec);
    assert rs[|rs| - 1] == ParsePair(last);
    assert Collect(rs).Failure?;
  }

  /** Every comma-separated pair of the setting parses on its own. */
  predicate AllPairsParse(spec: string) {
    forall i :: 0 <= i < |Split(spec, ',')| ==> ParsePair(Split(spec, ',')[i]).Success?
  }

  /** The setting parses exactly when it is empty or every pair in it parses. */
  lemma ParseSucceedsIff(spec: string)
    ensures ParseWorkspaces(spec).Success? <==> spec == "" || AllPairsParse(spec)
  {
    if spec != "" {
      var rs := PairResults(spec);
      assert Collect(rs).Success? <==> forall i :: 0 <= i < |rs| ==> rs[i].Success?;
    }
  }

  /** A refused setting reports the first pair that does not parse, exactly as that pair fails on its own. */
  lemma ParseReportsFirstBadPair(spec: string, i: nat)
    requires spec != "" && i < |Split(spec, ',')|
    requires ParsePair(Split(spec, ',')[i]).Failure?
    requires forall j :: 0 <= j < i ==> ParsePair(Split(spec, ',')[j]).Success?
    ensures ParseWorkspaces(spec) == Failure(ParsePair(Split(spec, ',')[i]).error)
  {
    var rs := PairResults(spec);
    CollectFirstFailure(rs, i);
  }

  /** Collecting stops at the first failure, whatever follows it. */
  lemma {:induction false} CollectFirstFailure<T, E>(rs: seq<Result<T, E>>, i: nat)
    requires i < |rs| && rs[i].Failure?
    requires forall j :: 0 <= j < i ==> rs[j].Success?
    ensures Collect(rs) == Failure(rs[i].error)
  {
    var k := FirstFailure(rs);
    assert k <= i;
    assert i <= k;
  }

  /** A pair without a colon refuses the setting and is reported verbatim. */
  lemma ExampleNoColon()
    ensures ParseWorkspaces("bad") == Failure(MissingColon("bad"))
  {
    assert ',' !in "bad" && ':' !in "bad";
    assert PairResults("bad") == [Failure(MissingColon("bad"))];
  }
}
