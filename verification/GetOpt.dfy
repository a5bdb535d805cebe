/** The tokeniser, the list parser, the NUL-separated command-line parser and the argument
    map of `get_opt.h`. */
module GetOpt {
  import opened Options

  // ----- token lists -----

  function Concat(ts: seq<string>): string {
    if ts == [] then "" else ts[0] + Concat(ts[1..])
  }

  predicate IsDelimiterToken(t: string, delimiters: string) {
    |t| == 1 && t[0] in delimiters
  }

  predicate IsWord(t: string, delimiters: string) {
    t != "" && forall i :: 0 <= i < |t| ==> t[i] !in delimiters
  }

  /** What `split` promises: delimiters stand alone, words are maximal, nothing is dropped. */
  ghost predicate IsTokenization(ts: seq<string>, s: string, delimiters: string) {
    && Concat(ts) == s
    && (forall i :: 0 <= i < |ts| ==> IsDelimiterToken(ts[i], delimiters) || IsWord(ts[i], delimiters))
    && (forall i :: 0 < i < |ts| ==> !(IsWord(ts[i - 1], delimiters) && IsWord(ts[i], delimiters)))
  }

  lemma {:induction false} ConcatAppend(ts: seq<string>, t: string)
    ensures Concat(ts + [t]) == Concat(ts) + t
  {
    if ts == [] {
      assert [t][1..] == [];
    } else {
      assert (ts + [t])[1..] == ts[1..] + [t];
      ConcatAppend(ts[1..], t);
    }
  }

  lemma TokenizationTail(ts: seq<string>, s: string, delimiters: string)
    requires IsTokenization(ts, s, delimiters) && ts != []
    ensures s == ts[0] + Concat(ts[1..]) && ts[0] != ""
    ensures IsTokenization(ts[1..], Concat(ts[1..]), delimiters)
  {
    assert forall i :: 0 <= i < |ts| - 1 ==> ts[1..][i] == ts[i + 1];
  }

  /** The first token is determined by the text. */
  lemma FirstTokenUnique(ts: seq<string>, us: seq<string>, s: string, delimiters: string)
    requires IsTokenization(ts, s, delimiters) && IsTokenization(us, s, delimiters)
    requires ts != [] && us != []
    ensures |ts[0]| <= |us[0]|
  {
    TokenizationTail(ts, s, delimiters);
    TokenizationTail(us, s, delimiters);
    assert forall i :: 0 <= i < |ts[0]| ==> s[i] == ts[0][i];
    assert forall i :: 0 <= i < |us[0]| ==> s[i] == us[0][i];
    if |us| > 1 {
      TokenizationTail(us[1..], Concat(us[1..]), delimiters);
      assert us[1][0] == s[|us[0]|];
    }
  }

  /** A text has at most one tokenisation. */
  lemma {:induction false} TokenizationUnique(ts: seq<string>, us: seq<string>, s: string, delimiters: string)
    requires IsTokenization(ts, s, delimiters) && IsTokenization(us, s, delimiters)
    ensures ts == us
    decreases |ts|
  {
    if ts == [] {
      if us != [] { TokenizationTail(us, s, delimiters); }
    } else {
      TokenizationTail(ts, s, delimiters);
      assert us != [];
      TokenizationTail(us, s, delimiters);
      FirstTokenUnique(ts, us, s, delimiters);
      FirstTokenUnique(us, ts, s, delimiters);
      assert ts[0] == s[..|ts[0]|] == us[0];
      assert Concat(ts[1..]) == s[|ts[0]|..] == Concat(us[1..]);
      TokenizationUnique(ts[1..], us[1..], Concat(ts[1..]), delimiters);
    }
  }

  lemma AppendToken(ts: seq<string>, s: string, t: string, delimiters: string)
    requires IsTokenization(ts, s, delimiters)
    requires IsDelimiterToken(t, delimiters) || IsWord(t, delimiters)
    requires IsWord(t, delimiters) && ts != [] ==> !IsWord(ts[|ts| - 1], delimiters)
    ensures IsTokenization(ts + [t], s + t, delimiters)
  {
    ConcatAppend(ts, t);
  }

  lemma DelimiterStands(ch: char, delimiters: string)
    requires ch in delimiters
    ensures IsDelimiterToken([ch], delimiters) && !IsWord([ch], delimiters)
  {
    assert [ch][0] == ch;
  }

  lemma WordGrows(str: string, ch: char, delimiters: string)
    requires (str == "" || IsWord(str, delimiters)) && ch !in delimiters
    ensures IsWord(str + [ch], delimiters)
  {
  }

  lemma OneMore(self: string, i: nat, done: string, str: string)
    requires i < |self| && done + str == self[..i]
    ensures self[..i + 1] == (done + str) + [self[i]] == done + (str + [self[i]])
    ensures str == "" ==> done + str == done
    ensures (done + str) + "" == done + str
    ensures done + [self[i]] + "" == done + [self[i]]
    ensures (done + str) + [self[i]] + "" == (done + str) + [self[i]]
  {
  }

  lemma OnlyTokenization(ts: seq<string>, s: string, delimiters: string)
    requires IsTokenization(ts, s, delimiters)
    ensures forall us :: IsTokenization(us, s, delimiters) ==> us == ts
  {
    forall us | IsTokenization(us, s, delimiters) { TokenizationUnique(us, ts, s, delimiters); }
  }

  method Split(self: string, delimiters: string) returns (tokens: seq<string>, size: nat)
    ensures IsTokenization(tokens, self, delimiters)
    ensures forall us :: IsTokenization(us, self, delimiters) ==> us == tokens
    ensures size == |tokens|
  {
    var str := "";
    tokens := [];
    ghost var done := "";
    assert IsTokenization(tokens, done, delimiters);
    hide IsTokenization, IsWord, IsDelimiterToken;
    for i := 0 to |self|
      invariant done + str == self[..i]
      invariant IsTokenization(tokens, done, delimiters)
      invariant str != "" ==> IsWord(str, delimiters)
      invariant tokens != [] ==> !IsWord(tokens[|tokens| - 1], delimiters)
    {
      var ch := self[i];
      OneMore(self, i, done, str);
      if ch in delimiters {
        if str != "" {
          AppendToken(tokens, done, str, delimiters);
          tokens, done, str := tokens + [str], done + str, "";
        }
        DelimiterStands(ch, delimiters);
        AppendToken(tokens, done, [ch], delimiters);
        tokens, done := tokens + [[ch]], done + [ch];
      } else {
        WordGrows(str, ch, delimiters);
        str := str + [ch];
      }
    }
    assert self[..|self|] == self;
    if str != "" {
      AppendToken(tokens, done, str, delimiters);
      tokens := tokens + [str];
    } else {
      assert done + str == done;
    }
    size := |tokens|;
    OnlyTokenization(tokens, self, delimiters);
  }

  // ----- comma-separated lists -----

  function Evens(ts: seq<string>): seq<string> {
    if |ts| == 0 then [] else if |ts| == 1 then [ts[0]] else [ts[0]] + Evens(ts[2..])
  }

  lemma {:induction false} EvensAppend(ts: seq<string>, t: string)
    ensures Evens(ts + [t]) == if |ts| % 2 == 0 then Evens(ts) + [t] else Evens(ts)
    decreases |ts|
  {
    if |ts| >= 2 {
      assert (ts + [t])[2..] == ts[2..] + [t];
      EvensAppend(ts[2..], t);
      assert Evens(ts + [t]) == [ts[0]] + Evens(ts[2..] + [t]);
    }
  }

  /** `asvecotr<std::string>`: every second token. */
  method AsVector(self: string) returns (res: seq<string>)
    ensures exists ts :: IsTokenization(ts, self, ",") && res == Evens(ts)
  {
    var tokens, _ := Split(self, ",");
    res := [];
    for i := 0 to |tokens|
      invariant res == Evens(tokens[..i])
    {
      EvensAppend(tokens[..i], tokens[i]);
      assert tokens[..i + 1] == tokens[..i] + [tokens[i]];
      if i % 2 == 0 {
        res := res + [tokens[i]];
      }
    }
    assert tokens[..|tokens|] == tokens;
  }

  function Join(xs: seq<string>): string {
    if xs == [] then "" else if |xs| == 1 then xs[0] else xs[0] + "," + Join(xs[1..])
  }

  /** The items with a comma token between neighbours. */
  function Interleave(xs: seq<string>): seq<string> {
    if |xs| <= 1 then xs else [xs[0], ","] + Interleave(xs[1..])
  }

  ghost predicate CommaFree(xs: seq<string>) {
    forall i, j :: 0 <= i < |xs| && 0 <= j < |xs[i]| ==> xs[i][j] != ','
  }

  ghost predicate NoneEmpty(xs: seq<string>) {
    forall i :: 0 <= i < |xs| ==> xs[i] != ""
  }

  lemma PrependToken(t: string, ts: seq<string>, s: string, delimiters: string)
    requires IsTokenization(ts, s, delimiters)
    requires IsDelimiterToken(t, delimiters) || IsWord(t, delimiters)
    requires IsWord(t, delimiters) && ts != [] ==> !IsWord(ts[0], delimiters)
    ensures IsTokenization([t] + ts, t + s, delimiters)
  {
    assert ([t] + ts)[1..] == ts;
  }

  lemma OneWord(t: string, delimiters: string)
    requires IsWord(t, delimiters)
    ensures IsTokenization([t], t, delimiters)
  {
    assert [t][1..] == [] && Concat([t]) == t + Concat([]) && t + "" == t;
  }

  lemma CommaPair(x: string, rest: seq<string>, s: string)
    requires IsWord(x, ",") && IsTokenization(rest, s, ",")
    ensures IsTokenization([x, ","] + rest, x + "," + s, ",")
  {
    assert IsDelimiterToken(",", ",");
    PrependToken(",", rest, s, ",");
    PrependToken(x, [","] + rest, "," + s, ",");
    assert [x] + ([","] + rest) == [x, ","] + rest;
    assert x + ("," + s) == x + "," + s;
  }

  lemma {:induction false} InterleaveTokenizes(xs: seq<string>)
    requires CommaFree(xs) && NoneEmpty(xs)
    ensures IsTokenization(Interleave(xs), Join(xs), ",")
  {
    if |xs| == 1 {
      assert IsWord(xs[0], ",");
      OneWord(xs[0], ",");
      assert [xs[0]] == xs;
    } else if |xs| > 1 {
      assert IsWord(xs[0], ",");
      InterleaveTokenizes(xs[1..]);
      CommaPair(xs[0], Interleave(xs[1..]), Join(xs[1..]));
    }
  }

  lemma {:induction false} EvensOfInterleave(xs: seq<string>)
    ensures Evens(Interleave(xs)) == xs
  {
    if |xs| > 1 {
      EvensOfInterleave(xs[1..]);
      assert Interleave(xs)[2..] == Interleave(xs[1..]);
    }
  }

  lemma {:induction false} EvensOfWords(ts: seq<string>)
    requires forall i :: 0 <= i < |ts| ==> ts[i] != ""
    ensures NoneEmpty(Evens(ts))
    decreases |ts|
  {
    if |ts| >= 2 {
      assert forall i :: 0 <= i < |ts| - 2 ==> ts[2..][i] == ts[i + 2];
      EvensOfWords(ts[2..]);
    }
  }

  /** Reading back the comma join of comma-free items gives the items, exactly when none is empty. */
  lemma ListRoundTrip(xs: seq<string>, ts: seq<string>)
    requires CommaFree(xs) && IsTokenization(ts, Join(xs), ",")
    ensures Evens(ts) == xs <==> NoneEmpty(xs)
  {
    if NoneEmpty(xs) {
      InterleaveTokenizes(xs);
      EvensOfInterleave(xs);
      TokenizationUnique(ts, Interleave(xs), Join(xs), ",");
    } else {
      EvensOfWords(ts);
    }
  }

  /** One empty item is not read back. */
  lemma EmptyItemIsLost(ts: seq<string>)
    requires IsTokenization(ts, Join([""]), ",")
    ensures Evens(ts) != [""]
  {
    assert [""][0] == "" && !NoneEmpty([""]);
    ListRoundTrip([""], ts);
  }

  // ----- /proc/<pid>/cmdline -----

  const NUL: char := '\0'

  ghost predicate NulFree(xs: seq<string>) {
    forall i :: 0 <= i < |xs| ==> NUL !in xs[i]
  }

  /** Every argument followed by a NUL. */
  function Terminated(xs: seq<string>): string {
    if xs == [] then "" else xs[0] + [NUL] + Terminated(xs[1..])
  }

  predicate Closed(arg: string) {
    arg == "" || arg[|arg| - 1] == NUL
  }

  ghost predicate IsParse(args: seq<string>, arg: string) {
    NulFree(args) && Terminated(args) == if Closed(arg) then arg else arg + [NUL]
  }

  lemma {:induction false} TerminatedAppend(xs: seq<string>, x: string)
    ensures Terminated(xs + [x]) == Terminated(xs) + x + [NUL]
  {
    if xs == [] {
      assert [x][1..] == [];
    } else {
      assert (xs + [x])[1..] == xs[1..] + [x];
      TerminatedAppend(xs[1..], x);
    }
  }

  method Cmdline(arg: string) returns (args: seq<string>)
    ensures IsParse(args, arg)
  {
    args := [];
    var i := 0;
    while i < |arg|
      invariant 0 <= i <= |arg| + 1
      invariant NulFree(args)
      invariant i <= |arg| ==> Terminated(args) == arg[..i] && Closed(arg[..i])
      invariant i > |arg| ==> Terminated(args) == arg + [NUL] && !Closed(arg)
    {
      var st := i;
      while i < |arg| && arg[i] != NUL
        invariant st <= i <= |arg|
        invariant NUL !in arg[st..i]
      {
        i := i + 1;
      }
      TerminatedAppend(args, arg[st..i]);
      args := args + [arg[st..i]];
      assert arg[..st] + arg[st..i] == arg[..i];
      if i < |arg| {
        assert arg[..i + 1] == arg[..i] + [NUL];
      } else {
        assert arg[..i] == arg;
        assert arg[|arg| - 1] == arg[st..i][|arg| - 1 - st];
      }
      i := i + 1;
    }
    if i == |arg| { assert arg[..i] == arg; }
  }

  lemma {:induction false} TerminatedInjective(xs: seq<string>, ys: seq<string>)
    requires NulFree(xs) && NulFree(ys) && Terminated(xs) == Terminated(ys)
    ensures xs == ys
    decreases |xs|
  {
    if xs != [] && ys != [] {
      var s := Terminated(xs);
      var a, b := |xs[0]|, |ys[0]|;
      assert s[a] == NUL && s[b] == NUL;
      assert xs[0] == s[..a] && ys[0] == s[..b];
      assert Terminated(xs[1..]) == s[a + 1..] && Terminated(ys[1..]) == s[b + 1..];
      TerminatedInjective(xs[1..], ys[1..]);
      assert xs == [xs[0]] + xs[1..] && ys == [ys[0]] + ys[1..];
    }
  }

  /** Any list of NUL-free arguments, empty ones included, is recovered from its terminated
      concatenation; a text is recovered from its arguments exactly when it ends in NUL. */
  lemma CmdlineRoundTrip(xs: seq<string>, args: seq<string>, arg: string)
    requires NulFree(xs) && IsParse(args, arg)
    ensures arg == Terminated(xs) ==> args == xs
    ensures Terminated(args) == arg <==> Closed(arg)
  {
    if arg == Terminated(xs) {
      if xs != [] {
        var last := xs[|xs| - 1];
        assert xs == xs[..|xs| - 1] + [last];
        TerminatedAppend(xs[..|xs| - 1], last);
      }
      assert Closed(arg);
      TerminatedInjective(args, xs);
    }
    if !Closed(arg) { assert |arg + [NUL]| != |arg|; }
  }

  /** A text without a final NUL is not what its one argument is written as. */
  lemma FinalNulIsAdded(args: seq<string>)
    requires IsParse(args, "a")
    ensures args == ["a"] && Terminated(args) != "a"
  {
    assert Terminated(["a"]) == "a" + [NUL] + Terminated(["a"][1..]) && ["a"][1..] == [];
    TerminatedInjective(args, ["a"]);
  }

  // ----- the argument map -----

  function Digit(d: nat): char
    requires d < 10
  {
    ['0', '1', '2', '3', '4', '5', '6', '7', '8', '9'][d]
  }

  /** std::to_string of a non-negative number. */
  function Decimal(n: nat): (s: string)
    ensures s != ""
  {
    if n < 10 then [Digit(n)] else Decimal(n / 10) + [Digit(n % 10)]
  }

  lemma {:induction false} DecimalInjective(m: nat, n: nat)
    requires Decimal(m) == Decimal(n)
    ensures m == n
    decreases m
  {
    var s := Decimal(m);
    assert m < 10 ==> |s| == 1;
    assert n < 10 ==> |s| == 1;
    if m < 10 && n < 10 {
      assert s[0] == Digit(m) == Digit(n);
    } else {
      assert m >= 10 ==> |s| >= 2;
      assert n >= 10 ==> |s| >= 2;
      var k := |s| - 1;
      assert s[k] == Digit(m % 10) == Digit(n % 10);
      assert Decimal(m / 10) == s[..k] == Decimal(n / 10);
      DecimalInjective(m / 10, n / 10);
    }
  }

  /** What assigning `true` to a std::string stores: the one character with code 1. */
  const TRUE_VALUE: string := "\U{1}"

  /** The entry an argument with these tokens defines, if any. */
  function Definition(tokens: seq<string>, program: string): Option<(string, string)> {
    if |tokens| == 3 && tokens[1] == "=" then Some((tokens[0], tokens[2]))
    else if |tokens| == 2 && tokens[1] == "=" then Some((tokens[0], TRUE_VALUE))
    else if |tokens| == 1 && tokens[0] != program then Some((tokens[0], TRUE_VALUE))
    else None
  }

  /** Argument `arg` gives key `k` the value `v`. */
  ghost predicate Defines(arg: string, program: string, k: string, v: string) {
    exists ts :: IsTokenization(ts, arg, "=") && Definition(ts, program) == Some((k, v))
  }

  /** A key or a value: free of '=', or a lone '='. */
  predicate IsPart(t: string) {
    t == "=" || (t != "" && forall i :: 0 <= i < |t| ==> t[i] != '=')
  }

  lemma PartIs(t: string)
    ensures IsPart(t) <==> IsDelimiterToken(t, "=") || IsWord(t, "=")
  {
  }

  lemma ConcatCons(t: string, ts: seq<string>)
    ensures Concat([t] + ts) == t + Concat(ts)
  {
    assert ([t] + ts)[1..] == ts;
  }

  lemma ConcatThree(a: string, b: string, c: string)
    ensures Concat([a]) == a && Concat([a, b]) == a + b && Concat([a, b, c]) == a + b + c
  {
    ConcatCons(c, []);
    ConcatCons(b, []);
    ConcatCons(a, []);
    ConcatCons(b, [c]);
    ConcatCons(a, [b]);
    ConcatCons(a, [b, c]);
    assert Concat([]) == "";
    hide Concat;
    ListLaws(a, b, c);
    StringLaws(a, b, c);
    StringLaws(b, a, c);
    StringLaws(c, a, b);
  }

  lemma ListLaws(a: string, b: string, c: string)
    ensures [a] + [] == [a] && [b] + [] == [b] && [c] + [] == [c]
    ensures [b] + [c] == [b, c] && [a] + [b] == [a, b]
    ensures [a] + [b, c] == [a, b, c]
  {
  }

  lemma StringLaws(a: string, b: string, c: string)
    ensures a + "" == a
    ensures a + (b + c) == a + b + c
  {
  }

  lemma PartsTokenize(k: string, v: string)
    requires IsPart(k) && IsPart(v)
    ensures IsTokenization([k], k, "=") && IsTokenization([k, "="], k + "=", "=")
    ensures IsTokenization([k, "=", v], k + "=" + v, "=")
  {
    PartIs(k);
    PartIs(v);
    PartIs("=");
    ConcatThree(k, "=", v);
    assert "=" == ['='] && "="[0] == '=';
    DelimiterStands('=', "=");
    hide IsWord, IsDelimiterToken, Concat, IsPart;
  }

  /** An argument defines a key exactly when it is key=value, key= or the key alone; a lone key that is
      the program's name defines nothing. The last two give the value with the one character 1. */
  lemma DefinesExactly(arg: string, program: string, k: string, v: string)
    ensures Defines(arg, program, k, v) <==>
              && IsPart(k)
              && (|| (IsPart(v) && arg == k + "=" + v)
                  || (v == "\U{1}" && arg == k + "=")
                  || (v == "\U{1}" && arg == k && k != program))
  {
    if Defines(arg, program, k, v) {
      var ts :| IsTokenization(ts, arg, "=") && Definition(ts, program) == Some((k, v));
      TokensAreParts(ts, arg);
      ConcatThree(ts[0], if |ts| > 1 then ts[1] else "", if |ts| > 2 then ts[2] else "");
      assert ts == if |ts| == 1 then [ts[0]] else if |ts| == 2 then [ts[0], ts[1]] else [ts[0], ts[1], ts[2]];
    }
    if IsPart(k) && IsPart(v) && arg == k + "=" + v {
      PartsTokenize(k, v);
      assert Definition([k, "=", v], program) == Some((k, v));
    }
    if IsPart(k) && v == "\U{1}" && (arg == k + "=" || (arg == k && k != program)) {
      PartsTokenize(k, k);
      assert Definition([k, "="], program) == Some((k, v));
      assert k != program ==> Definition([k], program) == Some((k, v));
    }
  }

  lemma TokensAreParts(ts: seq<string>, arg: string)
    requires IsTokenization(ts, arg, "=")
    ensures Concat(ts) == arg && forall i :: 0 <= i < |ts| ==> IsPart(ts[i])
  {
    forall i | 0 <= i < |ts| ensures IsPart(ts[i]) { PartIs(ts[i]); }
  }

  ghost predicate DefinesKey(arg: string, program: string, k: string) {
    exists v :: Defines(arg, program, k, v)
  }

  /** Entry `k` of the map after the first n arguments were tokenised: the last definition wins. */
  ghost predicate LastDefinition(argv: seq<string>, n: nat, k: string, v: string)
    requires n <= |argv|
  {
    exists j :: 0 <= j < n && Defines(argv[j], argv[0], k, v)
             && forall i :: j < i < n ==> !DefinesKey(argv[i], argv[0], k)
  }

  ghost predicate Positional(k: string, n: nat) {
    exists i :: 0 <= i < n && k == Decimal(i)
  }

  ghost predicate NamedEntries(m: map<string, string>, argv: seq<string>, n: nat)
    requires n <= |argv|
  {
    && (forall k :: k in m ==> LastDefinition(argv, n, k, m[k]))
    && (forall k, j :: 0 <= j < n && DefinesKey(argv[j], argv[0], k) ==> k in m)
  }

  lemma KeyDefined(ts: seq<string>, arg: string, program: string, k: string)
    requires IsTokenization(ts, arg, "=")
    ensures DefinesKey(arg, program, k) <==>
              Definition(ts, program).Some? && Definition(ts, program).value.0 == k
  {
    if DefinesKey(arg, program, k) {
      var v :| Defines(arg, program, k, v);
      var us :| IsTokenization(us, arg, "=") && Definition(us, program) == Some((k, v));
      TokenizationUnique(ts, us, arg, "=");
    } else if Definition(ts, program).Some? && Definition(ts, program).value.0 == k {
      assert Defines(arg, program, k, Definition(ts, program).value.1);
    }
  }

  lemma LastDefinitionSurvives(argv: seq<string>, n: nat, k: string, v: string)
    requires n < |argv| && LastDefinition(argv, n, k, v) && !DefinesKey(argv[n], argv[0], k)
    ensures LastDefinition(argv, n + 1, k, v)
  {
    var j :| 0 <= j < n && Defines(argv[j], argv[0], k, v)
          && forall i :: j < i < n ==> !DefinesKey(argv[i], argv[0], k);
    assert forall i :: j < i < n + 1 ==> !DefinesKey(argv[i], argv[0], k);
  }

  /** One tokenised argument keeps NamedEntries. */
  lemma NamedStep(m: map<string, string>, m': map<string, string>, argv: seq<string>, n: nat, ts: seq<string>)
    requires n < |argv| && NamedEntries(m, argv, n) && IsTokenization(ts, argv[n], "=")
    requires m' == match Definition(ts, argv[0]) case Some(kv) => m[kv.0 := kv.1] case None => m
    ensures NamedEntries(m', argv, n + 1)
  {
    forall k | k in m' ensures LastDefinition(argv, n + 1, k, m'[k]) {
      KeyDefined(ts, argv[n], argv[0], k);
      if DefinesKey(argv[n], argv[0], k) {
        assert Defines(argv[n], argv[0], k, m'[k]);
      } else {
        LastDefinitionSurvives(argv, n, k, m[k]);
      }
    }
    forall k, j | 0 <= j < n + 1 && DefinesKey(argv[j], argv[0], k) ensures k in m' {
      KeyDefined(ts, argv[n], argv[0], k);
    }
  }

  /** The map after argv[n..] were written under their decimal indices, the last one first. */
  function Numbered(named: map<string, string>, argv: seq<string>, n: nat): map<string, string>
    requires n <= |argv|
    decreases |argv| - n
  {
    if n == |argv| then named else Numbered(named, argv, n + 1)[Decimal(n) := argv[n]]
  }

  lemma {:induction false} NumberedEntries(named: map<string, string>, argv: seq<string>, n: nat)
    requires n <= |argv|
    ensures var m := Numbered(named, argv, n);
            && (forall i :: n <= i < |argv| ==> Decimal(i) in m && m[Decimal(i)] == argv[i])
            && (forall k :: k in named ==> k in m)
            && (forall k :: k in m && !Positional(k, |argv|) ==> k in named && m[k] == named[k])
    decreases |argv| - n
  {
    hide Decimal;
    if n < |argv| {
      NumberedEntries(named, argv, n + 1);
      assert Positional(Decimal(n), |argv|);
      forall i | n < i < |argv| ensures Decimal(i) != Decimal(n) {
        if Decimal(i) == Decimal(n) { DecimalInjective(i, n); }
      }
    }
  }

  class ArgumentMap {
    var entries: map<string, string>

    /** `getopt(argc, argv)`. */
    constructor (argv: seq<string>)
      ensures forall i :: 0 <= i < |argv| ==> Decimal(i) in entries && entries[Decimal(i)] == argv[i]
      ensures forall k :: k in entries && !Positional(k, |argv|) ==> LastDefinition(argv, |argv|, k, entries[k])
      ensures forall k, j :: 0 <= j < |argv| && DefinesKey(argv[j], argv[0], k) ==> k in entries
    {
      entries := map[];
      new;
      for j := 0 to |argv|
        invariant NamedEntries(entries, argv, j)
      {
        var tokens, size := Split(argv[j], "=");
        ghost var before := entries;
        if size == 3 && tokens[1] == "=" {
          entries := entries[tokens[0] := tokens[2]];
        } else if size == 2 && tokens[1] == "=" {
          entries := entries[tokens[0] := TRUE_VALUE];
        } else if size == 1 && tokens[0] != argv[0] {
          entries := entries[tokens[0] := TRUE_VALUE];
        }
        NamedStep(before, entries, argv, j, tokens);
      }
      ghost var named := entries;
      var argc := |argv|;
      while argc > 0
        invariant 0 <= argc <= |argv|
        invariant entries == Numbered(named, argv, argc)
      {
        argc := argc - 1;
        entries := entries[Decimal(argc) := argv[argc]];
      }
      NumberedEntries(named, argv, 0);
    }

    predicate Has(k: string)
      reads this
    {
      k in entries
    }

    /** `size()`: the length of the unbroken run of decimal keys from 0. */
    method Size() returns (n: nat)
      ensures forall i :: 0 <= i < n ==> Has(Decimal(i))
      ensures !Has(Decimal(n))
    {
      n := 0;
      DecimalsFit(entries.Keys, 0);
      while Has(Decimal(n))
        invariant forall i :: 0 <= i < n ==> Has(Decimal(i))
        invariant n <= |entries.Keys|
        decreases |entries.Keys| - n
      {
        n := n + 1;
        DecimalsFit(entries.Keys, n);
      }
    }
  }

  lemma {:induction false} DecimalsFit(keys: set<string>, n: nat)
    requires forall i :: 0 <= i < n ==> Decimal(i) in keys
    ensures n <= |keys|
    decreases n
  {
    if n > 0 {
      forall i | 0 <= i < n - 1 ensures Decimal(i) != Decimal(n - 1) {
        if Decimal(i) == Decimal(n - 1) { DecimalInjective(i, n - 1); }
      }
      DecimalsFit(keys - {Decimal(n - 1)}, n - 1);
    }
  }

  /** `size()` equals argc exactly when no argument defines the key spelling argc in decimal. */
  method SizeOfArguments(argv: seq<string>) returns (n: nat)
    ensures n >= |argv|
    ensures n == |argv| <==> forall j :: 0 <= j < |argv| ==> !DefinesKey(argv[j], argv[0], Decimal(|argv|))
  {
    var args := new ArgumentMap(argv);
    n := args.Size();
    var next := Decimal(|argv|);
    assert !Positional(next, |argv|) by {
      if Positional(next, |argv|) {
        var i :| 0 <= i < |argv| && next == Decimal(i);
        DecimalInjective(i, |argv|);
      }
    }
    assert forall i :: 0 <= i < |argv| ==> args.Has(Decimal(i));
    if n == |argv| {
      assert !args.Has(next);
    } else {
      assert args.Has(next);
      assert LastDefinition(argv, |argv|, next, args.entries[next]);
    }
  }

  /** "2=x" defines the key 2. */
  lemma KeyTwoDefined()
    ensures DefinesKey("2=x", "app", Decimal(2))
  {
    var ts := ["2", "=", "x"];
    assert Concat(ts) == "2" + Concat(ts[1..]);
    assert Concat(ts[1..]) == "=" + Concat(ts[1..][1..]) && ts[1..][1..] == ["x"];
    assert Concat(["x"]) == "x" + Concat([]);
    assert IsWord("2", "=") && IsWord("x", "=") && IsDelimiterToken("=", "=");
    assert IsTokenization(ts, "2=x", "=");
    assert Defines("2=x", "app", "2", "x");
  }

  /** A command line of two arguments on which `size()` is not two. */
  method SizeCanExceedArgc() returns (n: nat)
    ensures n > 2
  {
    var argv := ["app", "2=x"];
    KeyTwoDefined();
    assert argv[1] == "2=x" && argv[0] == "app";
    n := SizeOfArguments(argv);
  }
}
