/** protocol.c: the in-place tokenizer and the bounded response builders. */
module Protocol {
  import opened CStrings

  const MAX_BUFFER_SIZE: nat := 1024
  const MAX_ARGS: nat := 8

  datatype Command =
    | Unknown | RegisterSensor | Measurement | Login | GetSensors | GetStatus | GetAlerts | Ping | OperatorIdentify

  function Upper(c: char): char {
    if 'a' <= c <= 'z' then (c as int - 'a' as int + 'A' as int) as char else c
  }

  /** strcasecmp(a, b) == 0. */
  predicate SameIgnoringCase(a: string, b: string) {
    |a| == |b| && forall i :: 0 <= i < |a| ==> Upper(a[i]) == Upper(b[i])
  }

  function CommandOf(word: string): Command {
    if SameIgnoringCase(word, "REGISTER_SENSOR") then RegisterSensor
    else if SameIgnoringCase(word, "MEASUREMENT") then Measurement
    else if SameIgnoringCase(word, "LOGIN") then Login
    else if SameIgnoringCase(word, "GET_SENSORS") then GetSensors
    else if SameIgnoringCase(word, "GET_STATUS") then GetStatus
    else if SameIgnoringCase(word, "GET_ALERTS") then GetAlerts
    else if SameIgnoringCase(word, "PING") then Ping
    else if SameIgnoringCase(word, "OPERATOR_IDENTIFY") then OperatorIdentify
    else Unknown
  }

  /** The word is this command name in some capitalisation. */
  predicate Spells(word: string, name: string) {
    |word| == |name| &&
    forall i :: 0 <= i < |name| ==>
      word[i] == name[i] || ('A' <= name[i] <= 'Z' && word[i] as int == name[i] as int + 32)
  }

  /** The command that a first word stands for. */
  predicate Names(kind: Command, word: string) {
    match kind
    case RegisterSensor => Spells(word, "REGISTER_SENSOR")
    case Measurement => Spells(word, "MEASUREMENT")
    case Login => Spells(word, "LOGIN")
    case GetSensors => Spells(word, "GET_SENSORS")
    case GetStatus => Spells(word, "GET_STATUS")
    case GetAlerts => Spells(word, "GET_ALERTS")
    case Ping => Spells(word, "PING")
    case OperatorIdentify => Spells(word, "OPERATOR_IDENTIFY")
    case Unknown =>
      && !Spells(word, "REGISTER_SENSOR") && !Spells(word, "MEASUREMENT") && !Spells(word, "LOGIN")
      && !Spells(word, "GET_SENSORS") && !Spells(word, "GET_STATUS") && !Spells(word, "GET_ALERTS")
      && !Spells(word, "PING") && !Spells(word, "OPERATOR_IDENTIFY")
  }

  predicate CapitalName(name: string) {
    forall i :: 0 <= i < |name| ==> 'A' <= name[i] <= 'Z' || name[i] == '_'
  }

  lemma SpellsIff(word: string, name: string)
    requires CapitalName(name)
    ensures SameIgnoringCase(word, name) <==> Spells(word, name)
  {
  }

  lemma CommandNames()
    ensures CapitalName("REGISTER_SENSOR") && CapitalName("MEASUREMENT") && CapitalName("LOGIN")
    ensures CapitalName("GET_SENSORS") && CapitalName("GET_STATUS") && CapitalName("GET_ALERTS")
    ensures CapitalName("PING") && CapitalName("OPERATOR_IDENTIFY")
  {
  }

  /** No word spells two different names. */
  lemma SpellsOne(word: string, a: string, b: string, i: nat)
    requires Spells(word, a) && CapitalName(a) && CapitalName(b)
    requires |a| != |b| || (i < |a| && a[i] != b[i])
    ensures !Spells(word, b)
  {
    if |a| == |b| {
      assert word[i] == a[i] || word[i] as int == a[i] as int + 32;
      assert word[i] != b[i] && word[i] as int != b[i] as int + 32;
    }
  }

  lemma SpellsCommand(word: string)
    ensures SameIgnoringCase(word, "REGISTER_SENSOR") <==> Spells(word, "REGISTER_SENSOR")
    ensures SameIgnoringCase(word, "MEASUREMENT") <==> Spells(word, "MEASUREMENT")
    ensures SameIgnoringCase(word, "LOGIN") <==> Spells(word, "LOGIN")
    ensures SameIgnoringCase(word, "GET_SENSORS") <==> Spells(word, "GET_SENSORS")
    ensures SameIgnoringCase(word, "GET_STATUS") <==> Spells(word, "GET_STATUS")
    ensures SameIgnoringCase(word, "GET_ALERTS") <==> Spells(word, "GET_ALERTS")
    ensures SameIgnoringCase(word, "PING") <==> Spells(word, "PING")
    ensures SameIgnoringCase(word, "OPERATOR_IDENTIFY") <==> Spells(word, "OPERATOR_IDENTIFY")
  {
    CommandNames();
    SpellsIff(word, "REGISTER_SENSOR");
    SpellsIff(word, "MEASUREMENT");
    SpellsIff(word, "LOGIN");
    SpellsIff(word, "GET_SENSORS");
    SpellsIff(word, "GET_STATUS");
    SpellsIff(word, "GET_ALERTS");
    SpellsIff(word, "PING");
    SpellsIff(word, "OPERATOR_IDENTIFY");
  }

  /** The chain of comparisons finds exactly the command that the word names. */
  lemma CommandIsNamed(word: string)
    ensures Names(CommandOf(word), word)
  {
    SpellsCommand(word);
  }

  lemma LongNamesDiffer(word: string)
    ensures !(Spells(word, "MEASUREMENT") && Spells(word, "GET_SENSORS"))
    ensures !(Spells(word, "GET_STATUS") && Spells(word, "GET_ALERTS"))
  {
    CommandNames();
    if Spells(word, "MEASUREMENT") {
      SpellsOne(word, "MEASUREMENT", "GET_SENSORS", 0);
    }
    if Spells(word, "GET_STATUS") {
      SpellsOne(word, "GET_STATUS", "GET_ALERTS", 4);
    }
  }

  /** Every word names exactly one command. */
  lemma NamesOne(word: string, a: Command, b: Command)
    requires Names(a, word) && Names(b, word)
    ensures a == b
  {
    LongNamesDiffer(word);
  }

  /** A word names a command exactly when the parser takes it for that command. */
  lemma CommandIff(word: string, kind: Command)
    ensures CommandOf(word) == kind <==> Names(kind, word)
  {
    CommandIsNamed(word);
    if Names(kind, word) {
      NamesOne(word, kind, CommandOf(word));
    }
  }

  lemma CommandTable(word: string)
    ensures CommandOf(word) == RegisterSensor <==> Spells(word, "REGISTER_SENSOR")
    ensures CommandOf(word) == Measurement <==> Spells(word, "MEASUREMENT")
    ensures CommandOf(word) == Login <==> Spells(word, "LOGIN")
    ensures CommandOf(word) == GetSensors <==> Spells(word, "GET_SENSORS")
    ensures CommandOf(word) == GetStatus <==> Spells(word, "GET_STATUS")
    ensures CommandOf(word) == GetAlerts <==> Spells(word, "GET_ALERTS")
    ensures CommandOf(word) == Ping <==> Spells(word, "PING")
    ensures CommandOf(word) == OperatorIdentify <==> Spells(word, "OPERATOR_IDENTIFY")
  {
    CommandIff(word, RegisterSensor);
    CommandIff(word, Measurement);
    CommandIff(word, Login);
    CommandIff(word, GetSensors);
    CommandIff(word, GetStatus);
    CommandIff(word, GetAlerts);
    CommandIff(word, Ping);
    CommandIff(word, OperatorIdentify);
  }

  // ---------- the pure split ----------

  predicate EndsLine(c: char) {
    c == '\r' || c == '\n' || c == NUL
  }

  function FirstLine(s: string): (l: string)
    ensures l <= s
    ensures forall i :: 0 <= i < |l| ==> !EndsLine(l[i])
    ensures |l| < |s| ==> EndsLine(s[|l|])
  {
    if s == [] || EndsLine(s[0]) then [] else [s[0]] + FirstLine(s[1..])
  }

  function WordLength(s: string): (n: nat)
    ensures n <= |s|
    ensures forall i :: 0 <= i < n ==> s[i] != ' '
    ensures n < |s| ==> s[n] == ' '
  {
    if s == [] || s[0] == ' ' then 0 else 1 + WordLength(s[1..])
  }

  /** The maximal runs of non-space characters, in order. */
  function Words(s: string): seq<string>
    decreases |s|
  {
    if s == [] then []
    else if s[0] == ' ' then Words(s[1..])
    else var n := WordLength(s); [s[..n]] + Words(s[n..])
  }

  predicate Word(w: string) {
    w != [] && ' ' !in w
  }

  function Join(ws: seq<string>): string {
    if ws == [] then [] else if |ws| == 1 then ws[0] else ws[0] + " " + Join(ws[1..])
  }

  lemma {:induction false} WordsAreWords(s: string)
    ensures forall k :: 0 <= k < |Words(s)| ==> Word(Words(s)[k])
    ensures forall k, c :: 0 <= k < |Words(s)| && c in Words(s)[k] ==> c in s
    decreases |s|
  {
    if s != [] {
      if s[0] == ' ' {
        WordsAreWords(s[1..]);
        assert forall c :: c in s[1..] ==> c in s;
      } else {
        var n := WordLength(s);
        WordsAreWords(s[n..]);
        assert forall c :: c in s[n..] || c in s[..n] ==> c in s;
      }
    }
  }

  /** The words of the first line are non-empty and free of space, CR, LF and NUL. */
  lemma LineWords(s: string)
    ensures forall k :: 0 <= k < |Words(FirstLine(s))| ==> Word(Words(FirstLine(s))[k])
    ensures forall k, c :: 0 <= k < |Words(FirstLine(s))| && c in Words(FirstLine(s))[k] ==> !EndsLine(c)
    ensures forall k :: 0 <= k < |Words(FirstLine(s))| ==> NulFree(Words(FirstLine(s))[k])
  {
    WordsAreWords(FirstLine(s));
    assert forall c :: c in FirstLine(s) ==> !EndsLine(c);
    assert NUL !in FirstLine(s);
  }

  lemma WordLengthOf(w: string, rest: string)
    requires ' ' !in w && (rest == [] || rest[0] == ' ')
    ensures WordLength(w + rest) == |w|
  {
    var n := WordLength(w + rest);
    assert forall i :: 0 <= i < |w| ==> (w + rest)[i] == w[i] && w[i] in w;
    assert rest != [] ==> (w + rest)[|w|] == ' ';
    assert !(n < |w|) && !(n > |w|);
  }

  lemma WordsCons(w: string, rest: string)
    requires Word(w) && (rest == [] || rest[0] == ' ')
    ensures Words(w + rest) == [w] + Words(rest)
  {
    var s := w + rest;
    WordLengthOf(w, rest);
    assert s[0] == w[0] && w[0] in w;
    assert s[..|w|] == w && s[|w|..] == rest;
  }

  lemma WordsGap(s: string, n: nat)
    requires n < |s| && s[n] == ' '
    ensures Words(s[n..]) == Words(s[n + 1..])
  {
    assert s[n..][1..] == s[n + 1..];
  }

  lemma WordsUnfold(s: string)
    requires s != [] && s[0] != ' '
    ensures 0 < WordLength(s) && Words(s) == [s[..WordLength(s)]] + Words(s[WordLength(s)..])
  {
  }

  lemma FirstAndRest(head: string, rest: seq<string>, ws: seq<string>)
    requires ws == [head] + rest
    ensures ws != [] && ws[0] == head && ws[1..] == rest
  {
  }

  /** The first word, and the words behind it, whether or not a space follows. */
  lemma WordsHead(s: string, tail: string)
    requires s != [] && s[0] != ' '
    requires var n := WordLength(s); tail == if n < |s| then s[n + 1..] else s[n..]
    ensures Words(s) == [s[..WordLength(s)]] + Words(tail)
  {
    var n := WordLength(s);
    WordsUnfold(s);
    if n < |s| {
      WordsGap(s, n);
    }
  }

  lemma WordsAfterSpace(s: string)
    ensures Words(" " + s) == Words(s)
  {
    assert (" " + s)[1..] == s;
  }

  lemma WordLengthInFront(a: string, b: string)
    ensures WordLength(a + " " + b) == WordLength(a)
    decreases |a|
  {
    var s := a + " " + b;
    if a == [] {
      assert s[0] == ' ';
    } else if a[0] != ' ' {
      WordLengthInFront(a[1..], b);
      assert s[1..] == a[1..] + " " + b;
    }
  }

  /** The words of two texts with a space between them are those of the first, then those of the second:
      with the words of a single word and of no text at all, this is what splitting means. */
  lemma {:induction false} WordsOfTwo(a: string, b: string)
    ensures Words(a + " " + b) == Words(a) + Words(b)
    decreases |a|
  {
    var s := a + " " + b;
    if a == [] {
      assert s == " " + b;
      WordsAfterSpace(b);
    } else if a[0] == ' ' {
      assert s[1..] == a[1..] + " " + b;
      WordsOfTwo(a[1..], b);
    } else {
      var n := WordLength(a);
      WordLengthInFront(a, b);
      assert s[..n] == a[..n] && s[n..] == a[n..] + " " + b;
      WordsOfTwo(a[n..], b);
      WordsUnfold(s);
      WordsUnfold(a);
    }
  }

  lemma WordsOfOne(w: string)
    requires Word(w)
    ensures Words(w) == [w] && Words("") == []
  {
    WordsCons(w, []);
    assert w + [] == w;
  }

  /** Splitting undoes joining with single spaces. */
  lemma {:induction false} WordsOfJoin(ws: seq<string>)
    requires forall k :: 0 <= k < |ws| ==> Word(ws[k])
    ensures Words(Join(ws)) == ws
  {
    if |ws| == 1 {
      WordsCons(ws[0], []);
      assert ws[0] + [] == ws[0];
    } else if |ws| > 1 {
      WordsOfJoin(ws[1..]);
      WordsCons(ws[0], " " + Join(ws[1..]));
      assert ws[0] + " " + Join(ws[1..]) == ws[0] + (" " + Join(ws[1..]));
      assert (" " + Join(ws[1..]))[1..] == Join(ws[1..]);
    }
  }

  /** Whatever follows the first line ending is ignored. */
  lemma {:induction false} FirstLineOf(l: string, rest: string)
    requires forall i :: 0 <= i < |l| ==> !EndsLine(l[i])
    requires rest == [] || EndsLine(rest[0])
    ensures FirstLine(l + rest) == l
  {
    if l == [] {
      assert l + rest == rest;
    } else {
      FirstLineOf(l[1..], rest);
      assert (l + rest)[1..] == l[1..] + rest;
    }
  }

  // ---------- the tokenizer in place ----------

  /** The cells at `t` read as the C string `w`. */
  ghost predicate TokenAt(mem: seq<char>, t: nat, w: string) {
    t + |w| < |mem| && mem[t..t + |w|] == w && mem[t + |w|] == NUL
  }

  /** From `from` the memory holds text up to a terminator at `end`. */
  ghost predicate TextTo(mem: seq<char>, from: nat, end: nat) {
    from <= end < |mem| && mem[end] == NUL && NUL !in mem[from..end]
  }

  /** The memory after the word that ends at `q` was terminated. */
  function Terminated(mem: seq<char>, q: nat, end: nat): seq<char>
    requires q <= end < |mem|
  {
    if q == end then mem else mem[q := NUL]
  }

  function After(q: nat, end: nat): nat {
    if q >= end then q else q + 1
  }

  lemma SuffixText(mem: seq<char>, from: nat, later: nat, end: nat)
    requires TextTo(mem, from, end) && from <= later <= end
    ensures TextTo(mem, later, end) && mem[from..end][later - from..] == mem[later..end]
  {
    assert forall c :: c in mem[from..end][later - from..] ==> c in mem[from..end];
  }

  /** `now` is `mem` after the word of length n at `token` was terminated; `s` is the text from there. */
  ghost predicate Cut(mem: seq<char>, now: seq<char>, token: nat, end: nat, n: nat, s: string) {
    && TextTo(mem, token, end) && token < end && mem[token..end] == s && n <= |s|
    && now == Terminated(mem, token + n, end)
  }

  lemma CutToken(mem: seq<char>, now: seq<char>, token: nat, end: nat, n: nat, s: string)
    requires Cut(mem, now, token, end, n, s)
    ensures TokenAt(now, token, s[..n])
  {
    assert now[token..token + n] == s[..n];
  }

  lemma CutRest(mem: seq<char>, now: seq<char>, token: nat, end: nat, n: nat, s: string)
    requires Cut(mem, now, token, end, n, s)
    ensures TextTo(now, After(token + n, end), end)
    ensures now[After(token + n, end)..end] == if n < |s| then s[n + 1..] else s[n..]
  {
    var next := After(token + n, end);
    SuffixText(mem, token, next, end);
    assert now[next..end] == mem[next..end];
  }

  /** Cutting off the first word, where it ends, leaves its C string in place and the other words to come. */
  lemma CutWord(mem: seq<char>, now: seq<char>, token: nat, end: nat, n: nat, s: string)
    requires Cut(mem, now, token, end, n, s) && s[0] != ' ' && n == WordLength(s)
    ensures TokenAt(now, token, s[..n]) && TextTo(now, After(token + n, end), end)
    ensures Words(s) == [s[..n]] + Words(now[After(token + n, end)..end])
  {
    CutToken(mem, now, token, end, n, s);
    CutRest(mem, now, token, end, n, s);
    WordsHead(s, now[After(token + n, end)..end]);
  }

  /** The first `n` argument offsets hold the words `ws`, apart from each other, up to `bound`. */
  ghost predicate ArgsHold(mem: seq<char>, args: seq<nat>, ws: seq<string>, n: nat, bound: nat)
    requires n <= |ws| && n <= |args|
  {
    forall i :: 0 <= i < n ==>
      TokenAt(mem, args[i], ws[i]) && args[i] + |ws[i]| <= bound &&
      forall j :: i < j < n ==> args[i] + |ws[i]| < args[j]
  }

  /** Writing behind the tokens found so far does not disturb them. */
  lemma ArgsSurvive(mem: seq<char>, mem': seq<char>, args: seq<nat>, ws: seq<string>, n: nat, bound: nat)
    requires n <= |ws| && n <= |args| && ArgsHold(mem, args, ws, n, bound)
    requires |mem'| == |mem| && forall i :: 0 <= i <= bound && i < |mem| ==> mem'[i] == mem[i]
    ensures ArgsHold(mem', args, ws, n, bound)
  {
    forall i | 0 <= i < n ensures TokenAt(mem', args[i], ws[i]) {
      assert TokenAt(mem, args[i], ws[i]);
      assert mem'[args[i]..args[i] + |ws[i]|] == mem[args[i]..args[i] + |ws[i]|];
    }
  }

  lemma ArgsGrow(mem: seq<char>, args: seq<nat>, ws: seq<string>, n: nat, bound: nat)
    requires n < |ws| && n < |args| && ArgsHold(mem, args, ws, n, bound)
    requires TokenAt(mem, args[n], ws[n]) && (n == 0 || bound < args[n])
    ensures ArgsHold(mem, args, ws, n + 1, args[n] + |ws[n]|)
  {
  }

  lemma ArgsWithin(mem: seq<char>, args: seq<nat>, ws: seq<string>, n: nat, bound: nat)
    requires n <= |ws| && n <= |args| && ArgsHold(mem, args, ws, n, bound)
    ensures ArgsHold(mem, args, ws, n, |mem|)
  {
  }

  /** How many spaces a text starts with. */
  function Spaces(s: string): (n: nat)
    ensures n <= |s|
    ensures forall i :: 0 <= i < n ==> s[i] == ' '
    ensures n < |s| ==> s[n] != ' '
  {
    if s == [] || s[0] != ' ' then 0 else 1 + Spaces(s[1..])
  }

  lemma {:induction false} WordsAfterSpaces(s: string)
    ensures Words(s[Spaces(s)..]) == Words(s)
  {
    if s != [] && s[0] == ' ' {
      WordsAfterSpaces(s[1..]);
      assert s[1..][Spaces(s[1..])..] == s[Spaces(s)..];
    } else {
      assert s[Spaces(s)..] == s;
    }
  }

  /** What one call of strtok does to the memory: the next word of the text that is left is readable at
      `token`, the other words are left from `next` on, and nothing before the token changed. */
  ghost predicate Took(mem: seq<char>, now: seq<char>, save: nat, end: nat, found: bool, token: nat, next: nat)
    requires TextTo(mem, save, end)
  {
    var ws := Words(mem[save..end]);
    && |now| == |mem| && TextTo(now, next, end) && (found <==> ws != []) && (!found ==> now == mem)
    && (found ==>
          && save <= token && token + |ws[0]| <= next && TokenAt(now, token, ws[0])
          && now[..token] == mem[..token] && Words(now[next..end]) == ws[1..])
  }

  /** `token` is where the next word of the text left at `save` starts, or the end of the text. */
  ghost predicate StartsAt(mem: seq<char>, save: nat, end: nat, token: nat)
    requires TextTo(mem, save, end)
  {
    && save <= token <= end && TextTo(mem, token, end) && Words(mem[token..end]) == Words(mem[save..end])
    && (token < end ==> mem[token] != ' ' && mem[token] != NUL)
  }

  lemma TokenStart(mem: seq<char>, save: nat, end: nat, token: nat)
    requires TextTo(mem, save, end) && token == save + Spaces(mem[save..end])
    ensures StartsAt(mem, save, end, token)
  {
    var s := mem[save..end];
    SuffixText(mem, save, token, end);
    WordsAfterSpaces(s);
    if token < end {
      assert s[token - save] == mem[token] && s[token - save] in s;
    }
  }

  lemma TookHere(mem: seq<char>, now: seq<char>, token: nat, end: nat, next: nat)
    requires TextTo(mem, token, end) && token < end && mem[token] != ' '
    requires var q := token + WordLength(mem[token..end]); now == Terminated(mem, q, end) && next == After(q, end)
    ensures Took(mem, now, token, end, true, token, next)
  {
    var s := mem[token..end];
    CutWord(mem, now, token, end, WordLength(s), s);
    FirstAndRest(s[..WordLength(s)], Words(now[next..end]), Words(s));
    assert now[..token] == mem[..token];
  }

  lemma TookLater(mem: seq<char>, now: seq<char>, save: nat, start: nat, end: nat, found: bool, token: nat, next: nat)
    requires TextTo(mem, save, end) && StartsAt(mem, save, end, start)
    requires Took(mem, now, start, end, found, token, next)
    ensures Took(mem, now, save, end, found, token, next)
  {
  }

  lemma TookNothing(mem: seq<char>, save: nat, end: nat)
    requires TextTo(mem, save, end) && StartsAt(mem, save, end, end)
    ensures Took(mem, mem, save, end, false, end, end)
  {
  }

  /** The state of the argument loop: n words are stored, and `token` is the next one, if there is one. */
  ghost predicate Collecting(mem: seq<char>, args: seq<nat>, ws: seq<string>, n: nat, before: nat,
                             found: bool, token: nat, save: nat, end: nat)
  {
    && n <= |ws| && n <= |args| && TextTo(mem, save, end) && (found <==> n < |ws|)
    && ArgsHold(mem, args, ws, n, before)
    && (found ==>
          && TokenAt(mem, token, ws[n]) && (n == 0 || before < token) && token + |ws[n]| <= save
          && Words(mem[save..end]) == ws[n + 1..])
  }

  lemma CollectingStarts(mem: seq<char>, now: seq<char>, args: seq<nat>, start: nat, end: nat,
                         found: bool, token: nat, next: nat)
    requires TextTo(mem, start, end) && Took(mem, now, start, end, found, token, next)
    ensures Collecting(now, args, Words(mem[start..end]), 0, 0, found, token, next, end)
  {
  }

  /** The token is stored; the memory is as before. */
  lemma TokenStored(mem: seq<char>, args: seq<nat>, ws: seq<string>, n: nat, before: nat, token: nat)
    requires n < |ws| && n < |args| && ArgsHold(mem, args, ws, n, before)
    requires TokenAt(mem, token, ws[n]) && (n == 0 || before < token)
    ensures ArgsHold(mem, args[n := token], ws, n + 1, token + |ws[n]|)
  {
    ArgsGrow(mem, args[n := token], ws, n, before);
  }

  /** A token that strtok finds later starts behind the terminator of the one before. */
  lemma TookApart(mem: seq<char>, now: seq<char>, bound: nat, save: nat, end: nat,
                  found: bool, token: nat, next: nat)
    requires TextTo(mem, save, end) && Took(mem, now, save, end, found, token, next)
    requires bound <= save && bound < |mem| && mem[bound] == NUL
    ensures |now| == |mem| && forall i :: 0 <= i <= bound ==> now[i] == mem[i]
    ensures found ==> bound < token
  {
    TokensApart(mem, bound, save, end, found);
    if found {
      assert forall i :: 0 <= i <= bound ==> now[i] == now[..token][i] == mem[..token][i];
    }
  }

  /** One round of the loop: store the token, ask for the next one. */
  lemma CollectingStep(mem: seq<char>, now: seq<char>, args: seq<nat>, ws: seq<string>, n: nat, before: nat,
                       token: nat, save: nat, end: nat, found: bool, token': nat, next: nat)
    requires Collecting(mem, args, ws, n, before, true, token, save, end) && n < |args|
    requires Took(mem, now, save, end, found, token', next)
    ensures Collecting(now, args[n := token], ws, n + 1, token + |ws[n]|, found, token', next, end)
  {
    var bound := token + |ws[n]|;
    TokenStored(mem, args, ws, n, before, token);
    TookApart(mem, now, bound, save, end, found, token', next);
    ArgsSurvive(mem, now, args[n := token], ws, n + 1, bound);
  }

  class ParsedMessage {
    var kind: Command
    /** Offsets into raw. */
    const args: array<nat>
    var argc: nat
    const raw: array<char>

    ghost predicate Valid() {
      args.Length == MAX_ARGS && raw.Length == MAX_BUFFER_SIZE
    }

    constructor ()
      ensures Valid() && fresh(args) && fresh(raw)
    {
      kind := Unknown;
      args := new nat[MAX_ARGS](_ => 0);
      argc := 0;
      raw := new char[MAX_BUFFER_SIZE](_ => NUL);
    }

    method SkipSpaces(save: nat, ghost end: nat) returns (p: nat)
      requires TextTo(raw[..], save, end)
      ensures StartsAt(raw[..], save, end, p)
    {
      p := save;
      ghost var s := raw[..][save..end];
      while raw[p] == ' '
        invariant save <= p <= save + Spaces(s)
        decreases end - p
      {
        assert raw[p] == s[p - save];
        p := p + 1;
      }
      assert p < end ==> raw[p] == s[p - save];
      TokenStart(raw[..], save, end, p);
    }

    method SpanWord(token: nat, ghost end: nat) returns (q: nat)
      requires TextTo(raw[..], token, end)
      ensures token <= q <= end
      ensures q - token == WordLength(raw[..][token..end])
      ensures raw[q] == NUL <==> q == end
    {
      q := token;
      ghost var s := raw[..][token..end];
      while raw[q] != ' ' && raw[q] != NUL
        invariant token <= q <= token + WordLength(s)
        decreases end - q
      {
        assert raw[q] == s[q - token];
        q := q + 1;
      }
      assert q < end ==> raw[q] == s[q - token];
      assert q < end ==> raw[q] in s;
    }

    method TakeWord(token: nat, ghost end: nat) returns (next: nat)
      requires TextTo(raw[..], token, end) && token < end && raw[token] != ' '
      modifies raw
      ensures var q := token + WordLength(old(raw[..])[token..end]);
              raw[..] == Terminated(old(raw[..]), q, end) && next == After(q, end)
    {
      var q := SpanWord(token, end);
      if raw[q] == NUL {
        next := q;
      } else {
        raw[q] := NUL;
        next := q + 1;
      }
    }

    /** strtok(NULL, " ") with its saved position. */
    method Strtok(save: nat, ghost end: nat) returns (found: bool, token: nat, next: nat)
      requires TextTo(raw[..], save, end)
      modifies raw
      ensures Took(old(raw[..]), raw[..], save, end, found, token, next)
    {
      ghost var mem := raw[..];
      token := SkipSpaces(save, end);
      next := token;
      found := raw[token] != NUL;
      if found {
        next := TakeWord(token, end);
        TookHere(mem, raw[..], token, end, next);
        TookLater(mem, raw[..], save, token, end, true, token, next);
      } else {
        TookNothing(mem, save, end);
      }
    }

    /** Cuts the line in place at the first CR or LF. */
    method CutLine(received: nat) returns (end: nat)
      requires Valid() && received < MAX_BUFFER_SIZE && raw[received] == NUL
      modifies raw
      ensures end == |FirstLine(old(raw[..received]))| <= received
      ensures raw[..end] == FirstLine(old(raw[..received])) && raw[end] == NUL
    {
      end := 0;
      ghost var s := raw[..received];
      while raw[end] != NUL && raw[end] != '\r' && raw[end] != '\n'
        invariant end <= |FirstLine(s)| && raw[..received] == s && raw[received] == NUL
        decreases received - end
      {
        assert raw[end] == s[end];
        end := end + 1;
      }
      assert end < received ==> raw[end] == s[end];
      if raw[end] != NUL {
        raw[end] := NUL;
      }
    }

    /** Stores the remaining words, eight at most. */
    method CollectArgs(start: nat, ghost end: nat)
      requires Valid() && TextTo(raw[..], start, end)
      modifies raw, args, this`argc
      ensures argc == (var n := |Words(old(raw[..])[start..end])|; if n <= 8 then n else 8)
      ensures ArgsHold(raw[..], args[..], Words(old(raw[..])[start..end]), argc, MAX_BUFFER_SIZE)
    {
      ghost var mem := raw[..];
      ghost var ws := Words(mem[start..end]);
      argc := 0;
      var found: bool, token: nat, save: nat := Strtok(start, end);
      CollectingStarts(mem, raw[..], args[..], start, end, found, token, save);
      ghost var before: nat := 0;
      while found && argc < MAX_ARGS
        invariant argc <= MAX_ARGS
        invariant Collecting(raw[..], args[..], ws, argc, before, found, token, save, end)
        decreases MAX_ARGS - argc
      {
        before, found, token, save := StoreAndNext(token, save, end, ws, before);
      }
      ArgsWithin(raw[..], args[..], ws, argc, before);
    }

    /** The body of the argument loop. */
    method StoreAndNext(token: nat, save: nat, ghost end: nat, ghost ws: seq<string>, ghost before: nat)
      returns (ghost bound: nat, found: bool, token': nat, next: nat)
      requires Valid() && argc < MAX_ARGS
      requires Collecting(raw[..], args[..], ws, argc, before, true, token, save, end)
      modifies raw, args, this`argc
      ensures argc == old(argc) + 1
      ensures Collecting(raw[..], args[..], ws, argc, bound, found, token', next, end)
    {
      ghost var mem, offsets := raw[..], args[..];
      bound := token + |ws[argc]|;
      args[argc] := token;
      argc := argc + 1;
      assert args[..] == offsets[argc - 1 := token];
      found, token', next := Strtok(save, end);
      CollectingStep(mem, raw[..], offsets, ws, argc - 1, before, token, save, end, found, token', next);
    }

    /** protocol_parse. */
    method Parse(buffer: seq<char>, received: int) returns (result: int)
      requires Valid() && received <= |buffer|
      modifies this`kind, this`argc, raw, args
      ensures result == if 0 < received < 1024 then 0 else -1
      ensures result == 0 ==> Parsed(Words(FirstLine(buffer[..received])))
      ensures result == 0 ==> var ws := Words(FirstLine(buffer[..received]));
                              if ws == [] then kind == Unknown else Names(kind, ws[0])
      ensures result == -1 ==> raw[..] == old(raw[..]) && args[..] == old(args[..]) && kind == old(kind) && argc == old(argc)
    {
      if received <= 0 || received >= MAX_BUFFER_SIZE {
        return -1;
      }
      var end := CopyLine(buffer, received);
      ghost var line := FirstLine(buffer[..received]);
      argc := 0;
      kind := Unknown;
      LineWords(buffer[..received]);
      var found, token, save := Strtok(0, end);
      if found {
        kind := CommandOf(CStr(raw[token..]));
        CommandIsNamed(Words(line)[0]);
        ReadToken(raw[..], token, Words(line)[0]);
        CollectArgs(save, end);
        ReadArgs(raw[..], args[..], Words(line)[1..], argc);
      }
      result := 0;
    }

    /** The received bytes, terminated, and the line cut. */
    method CopyLine(buffer: seq<char>, received: nat) returns (end: nat)
      requires Valid() && received <= |buffer| && received < MAX_BUFFER_SIZE
      modifies raw
      ensures end == |FirstLine(buffer[..received])| < raw.Length
      ensures TextTo(raw[..], 0, end) && raw[..][0..end] == FirstLine(buffer[..received])
    {
      forall i | 0 <= i < received {
        raw[i] := buffer[i];
      }
      raw[received] := NUL;
      assert raw[..received] == buffer[..received];
      end := CutLine(received);
      assert raw[..][0..end] == FirstLine(buffer[..received]);
    }

    /** The parsed message reads as these words: the first decides the command, the next eight at
        most are the arguments, each a separate C string inside the buffer. */
    ghost predicate Parsed(ws: seq<string>)
      reads this, args, raw
    {
      && kind == (if ws == [] then Unknown else CommandOf(ws[0]))
      && argc == ArgCount(ws) && argc <= args.Length
      && (forall i :: 0 <= i < argc ==> args[i] + |ws[i + 1]| < raw.Length && CStr(raw[args[i]..]) == ws[i + 1])
      && (forall i, j :: 0 <= i < j < argc ==> args[i] + |ws[i + 1]| < args[j])
    }
  }

  /** A token that comes later starts behind the terminator of the one before. */
  lemma TokensApart(mem: seq<char>, bound: nat, save: nat, end: nat, found: bool)
    requires TextTo(mem, save, end) && bound <= save && bound < |mem| && mem[bound] == NUL
    requires found ==> Words(mem[save..end]) != []
    ensures found ==> bound < save
  {
    assert save < end ==> mem[save] == mem[save..end][0] && mem[save] in mem[save..end];
  }

  lemma ReadToken(mem: seq<char>, t: nat, w: string)
    requires TokenAt(mem, t, w) && NulFree(w)
    ensures CStr(mem[t..]) == w
  {
    assert w == mem[t..][..|w|];
    CStrStopsAtNul(w, mem[t..]);
  }

  lemma ReadArgs(mem: seq<char>, args: seq<nat>, ws: seq<string>, n: nat)
    requires n <= |ws| && n <= |args| && ArgsHold(mem, args, ws, n, MAX_BUFFER_SIZE)
    requires forall k :: 0 <= k < |ws| ==> NulFree(ws[k])
    ensures forall i :: 0 <= i < n ==> args[i] < |mem| && CStr(mem[args[i]..]) == ws[i]
  {
    forall i | 0 <= i < n ensures args[i] < |mem| && CStr(mem[args[i]..]) == ws[i] {
      ReadToken(mem, args[i], ws[i]);
    }
  }

  function ArgCount(ws: seq<string>): nat {
    if ws == [] then 0 else if |ws| - 1 <= 8 then |ws| - 1 else 8
  }

  // ---------- responses ----------

  function Framed(text: string): (r: string)
    ensures |r| <= 511
    ensures r == text + "\r\n" <==> |text| <= 509
  {
    Snprintf(512, text + "\r\n")
  }

  function BuildOk(details: string): string { Framed("OK " + details) }

  function BuildError(code: string, desc: string): string { Framed("ERROR " + code + " " + desc) }

  function BuildSensorsList(list: string): string { Framed("SENSORS " + list) }

  function BuildAlertsList(list: string): string { Framed("ALERTS " + list) }

  function BuildStatus(text: string): string { Framed("STATUS " + text) }

  /** A list response arrives with its line ending exactly when the list has at most 501 characters. */
  lemma ListFramedIff(list: string)
    ensures (|BuildSensorsList(list)| >= 2 && BuildSensorsList(list) == "SENSORS " + list + "\r\n") <==> |list| <= 501
  {
    var text := "SENSORS " + list;
    assert |text| == 8 + |list|;
  }
}
