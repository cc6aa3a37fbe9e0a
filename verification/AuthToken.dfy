/**
 The auth token's plaintext: a printer and a line-oriented parser.  Sealing (RSA and base64) is one
 abstract pair of functions, `open` undoing `seal`.  A timestamp is an i64.
*/
module AuthToken {
  import opened Decimal
  import opened Wrappers

  datatype Credentials = Credentials(username: string, password: string, ts: int)

  datatype AuthError = CannotOpen | Malformed

  const USER := "user: "
  const PWD := "pwd:  "
  const TS := "ts:   "

  function Plaintext(c: Credentials): string {
    (USER + c.username) + ("\n" + ((PWD + c.password) + ("\n" + (TS + IntText(c.ts)))))
  }

  /** The text on the wire. */
  lemma PlaintextIsWire(c: Credentials)
    ensures Plaintext(c) == "user: " + c.username + "\npwd:  " + c.password + "\nts:   " + IntText(c.ts)
  {
    hide IntText;
    var ts := TS + IntText(c.ts);
    assert (USER + c.username) + ("\n" + ((PWD + c.password) + ("\n" + ts)))
        == "user: " + c.username + "\npwd:  " + c.password + "\nts:   " + IntText(c.ts);
  }

  // ---- The string functions the parser calls ----

  /** The index of the first newline, or the length. */
  function LineEnd(s: string): (i: nat)
    ensures i <= |s|
  {
    if s == [] || s[0] == '\n' then 0 else 1 + LineEnd(s[1..])
  }

  function StripReturn(s: string): string {
    if s != [] && s[|s| - 1] == '\r' then s[..|s| - 1] else s
  }

  /** `str::lines`: a final line needs no newline, and loses a carriage return only together with one. */
  function Lines(s: string): seq<string>
    decreases |s|
  {
    if s == [] then []
    else if LineEnd(s) == |s| then [s]
    else [StripReturn(s[..LineEnd(s)])] + Lines(s[LineEnd(s) + 1..])
  }

  function StripPrefix(line: string, prefix: string): Option<string> {
    if |prefix| <= |line| && line[..|prefix|] == prefix then Some(line[|prefix|..]) else None
  }

  predicate IsWhitespace(c: char) {
    || '\t' <= c <= '\r' || c == ' ' || c as int == 0x85 || c as int == 0xA0 || c as int == 0x1680
    || 0x2000 <= c as int <= 0x200A || c as int == 0x2028 || c as int == 0x2029
    || c as int == 0x202F || c as int == 0x205F || c as int == 0x3000
  }

  function TrimStart(s: string): string {
    if s != [] && IsWhitespace(s[0]) then TrimStart(s[1..]) else s
  }

  function TrimEnd(s: string): string {
    if s != [] && IsWhitespace(s[|s| - 1]) then TrimEnd(s[..|s| - 1]) else s
  }

  function Timestamp(text: string): Option<int> {
    ParseI64(TrimEnd(TrimStart(text)))
  }

  // ---- The parser, as a lookup and as the loop ----

  /** The rest of the last line with the given prefix. */
  function LastField(lines: seq<string>, prefix: string): Option<string> {
    if lines == [] then None
    else
      var last := StripPrefix(lines[|lines| - 1], prefix);
      if last.Some? then last else LastField(lines[..|lines| - 1], prefix)
  }

  /** The last timestamp line decides, even when it does not parse. */
  function LastTimestamp(lines: seq<string>): Option<int> {
    match LastField(lines, TS)
    case Some(text) => Timestamp(text)
    case None => None
  }

  function Parse(plaintext: string): Result<Credentials, AuthError> {
    var lines := Lines(plaintext);
    match (LastField(lines, USER), LastField(lines, PWD), LastTimestamp(lines))
    case (Some(u), Some(p), Some(t)) => Ok(Credentials(u, p, t))
    case _ => Err(Malformed)
  }

  function Decode(token: string, open: string -> Option<string>): Result<Credentials, AuthError> {
    match open(token)
    case None => Err(CannotOpen)
    case Some(plaintext) => Parse(plaintext)
  }

  /** A line carries at most one of the three prefixes. */
  lemma OnePrefix(line: string)
    ensures StripPrefix(line, USER).Some? ==> StripPrefix(line, PWD).None? && StripPrefix(line, TS).None?
    ensures StripPrefix(line, PWD).Some? ==> StripPrefix(line, TS).None?
  {
    assert USER[0] == 'u' && PWD[0] == 'p' && TS[0] == 't';
    if |line| >= 6 {
      assert line[..6][0] == line[0];
    }
  }

  /** The loop over the lines, later matches overwriting earlier ones, is the last-match lookup. */
  method DecodeAuthToken(token: string, open: string -> Option<string>) returns (r: Result<Credentials, AuthError>)
    ensures r == Decode(token, open)
    ensures open(token).None? ==> r == Err(CannotOpen)
    ensures open(token).Some? ==> r == Parse(open(token).value)
  {
    var plaintext := open(token);
    if plaintext.None? {
      return Err(CannotOpen);
    }
    var lines := Lines(plaintext.value);
    var username: Option<string> := None;
    var password: Option<string> := None;
    var ts: Option<int> := None;
    for i := 0 to |lines|
      invariant username == LastField(lines[..i], USER)
      invariant password == LastField(lines[..i], PWD)
      invariant ts == LastTimestamp(lines[..i])
    {
      OnePrefix(lines[i]);
      assert lines[..i + 1][..i] == lines[..i];
      var u, p, t := StripPrefix(lines[i], USER), StripPrefix(lines[i], PWD), StripPrefix(lines[i], TS);
      if u.Some? {
        username := u;
      } else if p.Some? {
        password := p;
      } else if t.Some? {
        ts := Timestamp(t.value);
      }
    }
    assert lines[..|lines|] == lines;
    match (username, password, ts)
    case (Some(u), Some(p), Some(t)) => return Ok(Credentials(u, p, t));
    case _ => return Err(Malformed);
  }

  // ---- Round trip ----

  /** What survives line splitting: no newline, and no carriage return where the newline will be. */
  predicate OneLine(s: string) {
    '\n' !in s && (s != [] ==> s[|s| - 1] != '\r')
  }

  lemma {:induction false} LineEndAt(a: string, rest: string)
    requires '\n' !in a && (rest != [] ==> rest[0] == '\n')
    ensures LineEnd(a + rest) == |a|
  {
    if a == [] {
      assert a + rest == rest;
    } else {
      assert (a + rest)[1..] == a[1..] + rest;
      LineEndAt(a[1..], rest);
    }
  }

  lemma LinesStep(line: string, rest: string)
    requires '\n' !in line
    ensures Lines(line + ("\n" + rest)) == [StripReturn(line)] + Lines(rest)
  {
    var s := line + ("\n" + rest);
    LineEndAt(line, "\n" + rest);
    assert s[..|line|] == line && s[|line| + 1..] == rest;
  }

  lemma LinesLast(line: string)
    requires '\n' !in line && line != []
    ensures Lines(line) == [line]
  {
    LineEndAt(line, "");
    assert line + "" == line;
  }

  lemma {:induction false} NoNewlineInLines(s: string)
    ensures forall line :: line in Lines(s) ==> '\n' !in line
    decreases |s|
  {
    if s != [] {
      LineEndFirst(s);
      if LineEnd(s) < |s| {
        NoNewlineInLines(s[LineEnd(s) + 1..]);
      }
    }
  }

  lemma {:induction false} LineEndFirst(s: string)
    ensures '\n' !in s[..LineEnd(s)]
  {
    if s != [] && s[0] != '\n' {
      LineEndFirst(s[1..]);
      assert s[..LineEnd(s)] == [s[0]] + s[1..][..LineEnd(s[1..])];
    }
  }

  lemma {:induction false} LastFieldIsPart(lines: seq<string>, prefix: string)
    requires forall line :: line in lines ==> '\n' !in line
    ensures LastField(lines, prefix).Some? ==> '\n' !in LastField(lines, prefix).value
  {
    if lines != [] {
      assert lines[|lines| - 1] in lines;
      assert forall line :: line in lines[..|lines| - 1] ==> line in lines;
      LastFieldIsPart(lines[..|lines| - 1], prefix);
    }
  }

  /** A field with a newline never comes back: no parsed field holds one. */
  lemma ParsedFieldsAreLines(s: string, c: Credentials)
    requires Parse(s) == Ok(c)
    ensures '\n' !in c.username && '\n' !in c.password
  {
    NoNewlineInLines(s);
    LastFieldIsPart(Lines(s), USER);
    LastFieldIsPart(Lines(s), PWD);
  }

  lemma StripPrefixOf(prefix: string, rest: string)
    ensures StripPrefix(prefix + rest, prefix) == Some(rest)
  {
    assert (prefix + rest)[..|prefix|] == prefix && (prefix + rest)[|prefix|..] == rest;
  }

  lemma FieldReturn(prefix: string, s: string)
    requires prefix != [] && prefix[|prefix| - 1] != '\r'
    ensures StripReturn(prefix + s) == prefix + StripReturn(s)
  {
    var t := prefix + s;
    if s == [] {
      assert t == prefix;
    } else if s[|s| - 1] == '\r' {
      assert t[..|t| - 1] == prefix + s[..|s| - 1];
    }
  }

  /** The three lines of a printed token without newlines in its fields. */
  lemma PlaintextLines(c: Credentials)
    requires '\n' !in c.username && '\n' !in c.password
    ensures Lines(Plaintext(c)) == [USER + StripReturn(c.username), PWD + StripReturn(c.password), TS + IntText(c.ts)]
  {
    var third := TS + IntText(c.ts);
    IntTextIsPlain(c.ts);
    FieldReturn(USER, c.username);
    FieldReturn(PWD, c.password);
    LinesStep(USER + c.username, (PWD + c.password) + ("\n" + third));
    LinesStep(PWD + c.password, third);
    LinesLast(third);
  }

  lemma IntTextIsPlain(n: int)
    ensures forall c :: c in IntText(n) ==> IsDigit(c) || c == '-'
    ensures IntText(n) != []
  {
  }

  lemma TimestampOfIntText(n: int)
    requires IsI64(n)
    ensures Timestamp(IntText(n)) == Some(n)
  {
    IntTextIsPlain(n);
    var t := IntText(n);
    assert t[0] in t && t[|t| - 1] in t;
    assert TrimStart(t) == t && TrimEnd(t) == t;
    ParseIntOfIntText(n);
  }

  lemma ThreeFields(u: string, p: string, t: string)
    ensures var lines := [USER + u, PWD + p, TS + t];
            LastField(lines, USER) == Some(u) && LastField(lines, PWD) == Some(p) && LastField(lines, TS) == Some(t)
  {
    StripPrefixOf(USER, u);
    StripPrefixOf(PWD, p);
    StripPrefixOf(TS, t);
    OnePrefix(USER + u);
    OnePrefix(PWD + p);
    OnePrefix(TS + t);
    var lines := [USER + u, PWD + p, TS + t];
    assert lines[..2] == [USER + u, PWD + p] && lines[..2][..1] == [USER + u];
    hide StripPrefix;
    assert LastField([USER + u], USER) == Some(u);
    assert LastField([USER + u, PWD + p], USER) == Some(u);
    assert LastField([USER + u, PWD + p], PWD) == Some(p);
  }

  /** What a token without newlines in its fields decodes to: each field loses one final carriage return. */
  lemma ParseOfPlaintext(c: Credentials)
    requires IsI64(c.ts) && '\n' !in c.username && '\n' !in c.password
    ensures Parse(Plaintext(c)) == Ok(Credentials(StripReturn(c.username), StripReturn(c.password), c.ts))
  {
    hide Plaintext, Lines, LastField, Timestamp, IntText;
    PlaintextLines(c);
    ThreeFields(StripReturn(c.username), StripReturn(c.password), IntText(c.ts));
    TimestampOfIntText(c.ts);
  }

  /** The round trip holds exactly for user names and passwords that survive line splitting. */
  lemma TokenRoundTrip(c: Credentials, seal: string -> string, open: string -> Option<string>)
    requires IsI64(c.ts) && open(seal(Plaintext(c))) == Some(Plaintext(c))
    ensures Decode(seal(Plaintext(c)), open) == Ok(c) <==> OneLine(c.username) && OneLine(c.password)
  {
    hide Plaintext, Parse;
    if '\n' in c.username || '\n' in c.password {
      if Parse(Plaintext(c)) == Ok(c) {
        ParsedFieldsAreLines(Plaintext(c), c);
      }
    } else {
      ParseOfPlaintext(c);
    }
  }

  lemma LastFieldIn(lines: seq<string>, prefix: string, i: nat)
    requires i < |lines| && StripPrefix(lines[i], prefix).Some?
    requires forall j :: i < j < |lines| ==> StripPrefix(lines[j], prefix).None?
    ensures LastField(lines, prefix) == StripPrefix(lines[i], prefix)
  {
    if i < |lines| - 1 {
      LastFieldIn(lines[..|lines| - 1], prefix, i);
    }
  }

  predicate NoLine(lines: seq<string>, prefix: string) {
    forall i :: 0 <= i < |lines| ==> !(prefix <= lines[i])
  }

  lemma {:induction false} LastFieldAbsent(lines: seq<string>, prefix: string)
    requires NoLine(lines, prefix)
    ensures LastField(lines, prefix) == None
  {
    if lines != [] {
      LastFieldAbsent(lines[..|lines| - 1], prefix);
    }
  }

  /** Without a line for each of the three fields there is no token. */
  lemma MissingField(s: string)
    requires NoLine(Lines(s), "user: ") || NoLine(Lines(s), "pwd:  ") || NoLine(Lines(s), "ts:   ")
    ensures Parse(s) == Err(Malformed)
  {
    hide Lines, LastField, NoLine;
    if NoLine(Lines(s), "user: ") {
      LastFieldAbsent(Lines(s), "user: ");
    } else if NoLine(Lines(s), "pwd:  ") {
      LastFieldAbsent(Lines(s), "pwd:  ");
    } else {
      LastFieldAbsent(Lines(s), "ts:   ");
    }
  }

  /** Of several lines with one field the last decides, other lines do not matter. */
  lemma LastLineWins(s: string, u: nat, p: nat, t: nat)
    requires u < |Lines(s)| && p < |Lines(s)| && t < |Lines(s)|
    requires "user: " <= Lines(s)[u] && forall j :: u < j < |Lines(s)| ==> !("user: " <= Lines(s)[j])
    requires "pwd:  " <= Lines(s)[p] && forall j :: p < j < |Lines(s)| ==> !("pwd:  " <= Lines(s)[j])
    requires "ts:   " <= Lines(s)[t] && forall j :: t < j < |Lines(s)| ==> !("ts:   " <= Lines(s)[j])
    ensures Parse(s) == match Timestamp(Lines(s)[t][6..])
                        case Some(ts) => Ok(Credentials(Lines(s)[u][6..], Lines(s)[p][6..], ts))
                        case None => Err(Malformed)
  {
    hide Lines, Timestamp, LastField;
    LastFieldIn(Lines(s), "user: ", u);
    LastFieldIn(Lines(s), "pwd:  ", p);
    LastFieldIn(Lines(s), "ts:   ", t);
  }

  predicate Spaces(s: string) {
    forall i :: 0 <= i < |s| ==> s[i] in " \t\n\r\U{000B}\U{000C}\U{0085}\U{00A0}\U{2003}\U{3000}"
  }

  /** A timestamp may stand among any white space. */
  lemma SpacedTimestamp(before: string, n: int, behind: string)
    requires IsI64(n) && Spaces(before) && Spaces(behind)
    ensures Timestamp(before + (IntText(n) + behind)) == Some(n)
  {
    hide IntText, ParseI64, TrimStart, TrimEnd;
    IntTextIsPlain(n);
    var t := IntText(n);
    assert t[0] in t && t[|t| - 1] in t;
    TrimsStart(before, t + behind);
    TrimsEnd(t, behind);
    ParseIntOfIntText(n);
  }

  lemma {:induction false} TrimsStart(space: string, t: string)
    requires (forall i :: 0 <= i < |space| ==> IsWhitespace(space[i])) && t != [] && !IsWhitespace(t[0])
    ensures TrimStart(space + t) == t
  {
    if space == [] {
      assert space + t == t;
    } else {
      assert (space + t)[1..] == space[1..] + t;
      TrimsStart(space[1..], t);
    }
  }

  lemma {:induction false} TrimsEnd(t: string, space: string)
    requires (forall i :: 0 <= i < |space| ==> IsWhitespace(space[i])) && t != [] && !IsWhitespace(t[|t| - 1])
    ensures TrimEnd(t + space) == t
  {
    if space == [] {
      assert t + space == t;
    } else {
      assert (t + space)[..|t + space| - 1] == t + space[..|space| - 1];
      TrimsEnd(t, space[..|space| - 1]);
    }
  }

  /** A final carriage return is lost on the way. */
  lemma ReturnIsLost()
    ensures Parse(Plaintext(Credentials("bob\r", "pw", 0))) == Ok(Credentials("bob", "pw", 0))
  {
    hide Plaintext, Parse;
    assert "bob\r"[..3] == "bob";
    ParseOfPlaintext(Credentials("bob\r", "pw", 0));
  }

  /** A name of two lines does not come back. */
  lemma NewlineIsLost()
    ensures Parse(Plaintext(Credentials("bob\nby", "pw", 0))) != Ok(Credentials("bob\nby", "pw", 0))
  {
    hide Plaintext, Parse;
    var c := Credentials("bob\nby", "pw", 0);
    assert c.username[3] == '\n';
    if Parse(Plaintext(c)) == Ok(c) {
      ParsedFieldsAreLines(Plaintext(c), c);
    }
  }
}
