/**
 The quoting tokenizer for extra CLI flags (shell_split.go).

 `Scan` is the tokenizer as a function of the rest of the input, the quote it is inside, and the
 token in progress. The laws say when it fails, that a space splits the work, and that quoted
 renderings of any token list are read back.
 */
module ShellWords {
  datatype Words = Words(tokens: seq<string>) | Unclosed

  datatype Mode = Plain | Single | Double

  predicate IsBlank(c: char) { c == ' ' || c == '\t' || c == '\n' || c == '\r' }

  /** A backslash that escapes the next character inside double quotes. */
  predicate Escapes(s: string) {
    |s| > 1 && s[0] == '\\' && (s[1] == '"' || s[1] == '\\')
  }

  function Prepend(tokens: seq<string>, w: Words): Words {
    if w.Words? then Words(tokens + w.tokens) else w
  }

  function Scan(s: string, mode: Mode, cur: string, inToken: bool): Words
    decreases |s|
  {
    match mode
    case Single =>
      if s == "" then Unclosed
      else if s[0] == '\'' then Scan(s[1..], Plain, cur, true)
      else Scan(s[1..], Single, cur + [s[0]], true)
    case Double =>
      if s == "" then Unclosed
      else if s[0] == '"' then Scan(s[1..], Plain, cur, true)
      else if Escapes(s) then Scan(s[2..], Double, cur + [s[1]], true)
      else Scan(s[1..], Double, cur + [s[0]], true)
    case Plain =>
      if s == "" then Words(if inToken then [cur] else [])
      else if IsBlank(s[0]) then
        if inToken then Prepend([cur], Scan(s[1..], Plain, "", false)) else Scan(s[1..], Plain, cur, false)
      else if s[0] == '\'' then Scan(s[1..], Single, cur, true)
      else if s[0] == '"' then Scan(s[1..], Double, cur, true)
      else Scan(s[1..], Plain, cur + [s[0]], true)
  }

  function Split(s: string): Words { Scan(s, Plain, "", false) }

  // ---------------------------------------------------------------- when it fails

  /** The quote an input leaves open, read off the characters alone. */
  function OpenQuote(s: string, mode: Mode): Mode
    decreases |s|
  {
    if s == "" then mode
    else match mode
      case Single => OpenQuote(s[1..], if s[0] == '\'' then Plain else Single)
      case Double =>
        if Escapes(s) then OpenQuote(s[2..], Double) else OpenQuote(s[1..], if s[0] == '"' then Plain else Double)
      case Plain => OpenQuote(s[1..], if s[0] == '\'' then Single else if s[0] == '"' then Double else Plain)
  }

  lemma {:induction false} ScanFailsIff(s: string, mode: Mode, cur: string, inToken: bool)
    ensures Scan(s, mode, cur, inToken).Unclosed? <==> !OpenQuote(s, mode).Plain?
    decreases |s|
  {
    if s != "" {
      match mode
      case Single =>
        ScanFailsIff(s[1..], if s[0] == '\'' then Plain else Single, if s[0] == '\'' then cur else cur + [s[0]], true);
      case Double =>
        if Escapes(s) {
          ScanFailsIff(s[2..], Double, cur + [s[1]], true);
        } else {
          ScanFailsIff(s[1..], if s[0] == '"' then Plain else Double, if s[0] == '"' then cur else cur + [s[0]], true);
        }
      case Plain =>
        if IsBlank(s[0]) {
          ScanFailsIff(s[1..], Plain, if inToken then "" else cur, false);
        } else if s[0] == '\'' {
          ScanFailsIff(s[1..], Single, cur, true);
        } else if s[0] == '"' {
          ScanFailsIff(s[1..], Double, cur, true);
        } else {
          ScanFailsIff(s[1..], Plain, cur + [s[0]], true);
        }
    }
  }

  /** The tokenizer fails exactly on inputs that end inside a quote. */
  lemma SplitFailsIffQuoteIsOpen(s: string)
    ensures Split(s).Unclosed? <==> !OpenQuote(s, Plain).Plain?
  {
    ScanFailsIff(s, Plain, "", false);
  }

  // ---------------------------------------------------------------- splitting at a blank

  lemma {:induction false} ScanAtBlank(a: string, blank: char, b: string, mode: Mode, cur: string, inToken: bool)
    requires IsBlank(blank) && Scan(a, mode, cur, inToken).Words? && (!inToken ==> cur == "")
    ensures Scan(a + [blank] + b, mode, cur, inToken) == Prepend(Scan(a, mode, cur, inToken).tokens, Split(b))
    decreases |a|
  {
    var s := a + [blank] + b;
    if a == "" {
      assert s[1..] == b;
    } else {
      assert s[0] == a[0] && s[1..] == a[1..] + [blank] + b;
      match mode
      case Single =>
        if a[0] == '\'' {
          ScanAtBlank(a[1..], blank, b, Plain, cur, true);
        } else {
          ScanAtBlank(a[1..], blank, b, Single, cur + [a[0]], true);
        }
      case Double =>
        if a[0] == '"' {
          ScanAtBlank(a[1..], blank, b, Plain, cur, true);
        } else if Escapes(a) {
          assert s[1] == a[1] && s[2..] == a[2..] + [blank] + b;
          ScanAtBlank(a[2..], blank, b, Double, cur + [a[1]], true);
        } else {
          assert |a| > 1 && s[1] == a[1];
          ScanAtBlank(a[1..], blank, b, Double, cur + [a[0]], true);
        }
      case Plain =>
        if IsBlank(a[0]) {
          ScanAtBlank(a[1..], blank, b, Plain, "", false);
        } else if a[0] == '\'' {
          ScanAtBlank(a[1..], blank, b, Single, cur, true);
        } else if a[0] == '"' {
          ScanAtBlank(a[1..], blank, b, Double, cur, true);
        } else {
          ScanAtBlank(a[1..], blank, b, Plain, cur + [a[0]], true);
        }
    }
  }

  /** After a closed prefix, a blank lets the rest be split on its own, failure included. */
  lemma SplitAtBlank(a: string, blank: char, b: string)
    requires IsBlank(blank) && Split(a).Words?
    ensures Split(a + [blank] + b) == Prepend(Split(a).tokens, Split(b))
  {
    ScanAtBlank(a, blank, b, Plain, "", false);
  }

  // ---------------------------------------------------------------- round trips

  datatype Style = Bare | SingleQuoted | DoubleQuoted | Verbatim

  /** A part of a token and how it is written. */
  datatype Piece = Piece(style: Style, text: string)

  function Escape(t: string): string {
    if t == "" then ""
    else (if t[0] == '"' || t[0] == '\\' then ['\\', t[0]] else [t[0]]) + Escape(t[1..])
  }

  /** Double-quoted as it is: no double quote, and every backslash before a character it does not escape. */
  predicate NeedsNoEscape(t: string) {
    t == "" || (t[0] != '"' && (t[0] == '\\' ==> |t| > 1 && t[1] != '\\') && NeedsNoEscape(t[1..]))
  }

  /** Bare without blanks and quotes, single-quoted without single quotes, double-quoted with escapes always. */
  predicate Suits(p: Piece) {
    match p.style
    case Bare =>
      p.text != "" && forall i | 0 <= i < |p.text| :: !IsBlank(p.text[i]) && p.text[i] != '\'' && p.text[i] != '"'
    case SingleQuoted => '\'' !in p.text
    case DoubleQuoted => true
    case Verbatim => NeedsNoEscape(p.text)
  }

  function Written(p: Piece): string {
    match p.style
    case Bare => p.text
    case SingleQuoted => "'" + p.text + "'"
    case DoubleQuoted => "\"" + Escape(p.text) + "\""
    case Verbatim => "\"" + p.text + "\""
  }

  /** A token written as pieces put together. */
  function WrittenToken(ps: seq<Piece>): string {
    if ps == [] then "" else Written(ps[0]) + WrittenToken(ps[1..])
  }

  function Text(ps: seq<Piece>): string {
    if ps == [] then "" else ps[0].text + Text(ps[1..])
  }

  predicate AllSuit(ps: seq<Piece>) { forall p <- ps :: Suits(p) }

  predicate Blanks(s: string) { forall c <- s :: IsBlank(c) }

  lemma {:induction false} BareScan(t: string, rest: string, cur: string, inToken: bool)
    requires t != "" && Suits(Piece(Bare, t))
    ensures Scan(t + rest, Plain, cur, inToken) == Scan(rest, Plain, cur + t, true)
    decreases |t|
  {
    assert (t + rest)[1..] == t[1..] + rest;
    if t[1..] == "" {
      assert cur + [t[0]] == cur + t && t[1..] + rest == rest;
    } else {
      BareScan(t[1..], rest, cur + [t[0]], true);
      assert cur + [t[0]] + t[1..] == cur + t;
    }
  }

  lemma {:induction false} SingleScan(t: string, rest: string, cur: string)
    requires '\'' !in t
    ensures Scan(t + "'" + rest, Single, cur, true) == Scan(rest, Plain, cur + t, true)
    decreases |t|
  {
    var s := t + "'" + rest;
    if t == "" {
      assert cur + t == cur && s[1..] == rest;
    } else {
      assert s[1..] == t[1..] + "'" + rest;
      SingleScan(t[1..], rest, cur + [t[0]]);
      assert cur + [t[0]] + t[1..] == cur + t;
    }
  }

  lemma {:induction false} DoubleScan(t: string, rest: string, cur: string)
    ensures Scan(Escape(t) + "\"" + rest, Double, cur, true) == Scan(rest, Plain, cur + t, true)
    decreases |t|
  {
    var s := Escape(t) + "\"" + rest;
    if t == "" {
      assert cur + t == cur && s[1..] == rest;
    } else {
      var s' := Escape(t[1..]) + "\"" + rest;
      DoubleScan(t[1..], rest, cur + [t[0]]);
      assert cur + [t[0]] + t[1..] == cur + t;
      if t[0] == '"' || t[0] == '\\' {
        assert s == ['\\', t[0]] + s';
        assert s[2..] == s';
      } else {
        assert s == [t[0]] + s';
        assert s[1..] == s';
      }
    }
  }

  lemma {:induction false} VerbatimScan(t: string, rest: string, cur: string)
    requires NeedsNoEscape(t)
    ensures Scan(t + "\"" + rest, Double, cur, true) == Scan(rest, Plain, cur + t, true)
    decreases |t|
  {
    var s := t + "\"" + rest;
    if t == "" {
      assert cur + t == cur && s[1..] == rest;
    } else {
      assert s[1..] == t[1..] + "\"" + rest;
      assert !Escapes(s);
      VerbatimScan(t[1..], rest, cur + [t[0]]);
      assert cur + [t[0]] + t[1..] == cur + t;
    }
  }

  /** A quoted part goes on with the token in progress, from its opening quote. */
  lemma QuotedScan(quote: char, body: string, cur: string, inToken: bool)
    requires quote == '\'' || quote == '"'
    ensures Scan([quote] + body, Plain, cur, inToken) == Scan(body, if quote == '"' then Double else Single, cur, true)
  {
    assert ([quote] + body)[1..] == body;
  }

  /** A written piece adds its text to the token in progress, or begins one. */
  lemma PieceScan(p: Piece, rest: string, cur: string, inToken: bool)
    requires Suits(p)
    ensures Scan(Written(p) + rest, Plain, cur, inToken) == Scan(rest, Plain, cur + p.text, true)
  {
    match p.style
    case Bare =>
      BareScan(p.text, rest, cur, inToken);
    case SingleQuoted =>
      SingleScan(p.text, rest, cur);
      QuotedScan('\'', p.text + "'" + rest, cur, inToken);
      assert Written(p) + rest == ['\''] + (p.text + "'" + rest);
    case DoubleQuoted =>
      DoubleScan(p.text, rest, cur);
      QuotedScan('"', Escape(p.text) + "\"" + rest, cur, inToken);
      assert Written(p) + rest == ['"'] + (Escape(p.text) + "\"" + rest);
    case Verbatim =>
      VerbatimScan(p.text, rest, cur);
      QuotedScan('"', p.text + "\"" + rest, cur, inToken);
      assert Written(p) + rest == ['"'] + (p.text + "\"" + rest);
  }

  lemma {:induction false} TokenScan(ps: seq<Piece>, rest: string, cur: string, inToken: bool)
    requires AllSuit(ps) && (ps != [] || inToken)
    ensures Scan(WrittenToken(ps) + rest, Plain, cur, inToken) == Scan(rest, Plain, cur + Text(ps), true)
    decreases |ps|
  {
    if ps == [] {
      assert "" + rest == rest && cur + "" == cur;
    } else {
      var rest' := WrittenToken(ps[1..]) + rest;
      assert WrittenToken(ps) + rest == Written(ps[0]) + rest';
      PieceScan(ps[0], rest', cur, inToken);
      TokenScan(ps[1..], rest, cur + ps[0].text, true);
      assert cur + ps[0].text + Text(ps[1..]) == cur + Text(ps);
    }
  }

  /** A token put together from pieces, each in a style that suits it, is read back as one. */
  lemma WrittenTokenIsRead(ps: seq<Piece>)
    requires ps != [] && AllSuit(ps)
    ensures Split(WrittenToken(ps)) == Words([Text(ps)])
  {
    TokenScan(ps, "", "", false);
    assert WrittenToken(ps) + "" == WrittenToken(ps) && "" + Text(ps) == Text(ps);
  }

  lemma {:induction false} BlanksScan(blanks: string, rest: string)
    requires Blanks(blanks)
    ensures Split(blanks + rest) == Split(rest)
  {
    if blanks == "" {
      assert blanks + rest == rest;
    } else {
      BlanksScan(blanks[1..], rest);
      assert (blanks + rest)[1..] == blanks[1..] + rest;
    }
  }

  /** Tokens, each with the blanks after it. */
  type Spaced = (seq<Piece>, string)

  function WrittenAll(ws: seq<Spaced>): string {
    if ws == [] then "" else WrittenToken(ws[0].0) + ws[0].1 + WrittenAll(ws[1..])
  }

  function Tokens(ws: seq<Spaced>): seq<string> {
    if ws == [] then [] else [Text(ws[0].0)] + Tokens(ws[1..])
  }

  /** Every token can be read, and blanks follow it unless it is the last. */
  predicate WellSpaced(ws: seq<Spaced>) {
    forall i | 0 <= i < |ws| ::
      ws[i].0 != [] && AllSuit(ws[i].0) && Blanks(ws[i].1) && (i < |ws| - 1 ==> ws[i].1 != "")
  }

  lemma TokenThenBlanks(ps: seq<Piece>, blanks: string, rest: string)
    requires ps != [] && AllSuit(ps) && Blanks(blanks) && blanks != ""
    ensures Split(WrittenToken(ps) + blanks + rest) == Prepend([Text(ps)], Split(rest))
  {
    WrittenTokenIsRead(ps);
    BlanksScan(blanks[1..], rest);
    SplitAtBlank(WrittenToken(ps), blanks[0], blanks[1..] + rest);
    assert WrittenToken(ps) + blanks + rest == WrittenToken(ps) + [blanks[0]] + (blanks[1..] + rest);
  }

  /** Blanks before the first token or after the last one make no token. */
  lemma TokenAtTheEnd(ps: seq<Piece>, blanks: string)
    requires ps != [] && AllSuit(ps) && Blanks(blanks)
    ensures Split(WrittenToken(ps) + blanks) == Words([Text(ps)])
  {
    if blanks == "" {
      assert WrittenToken(ps) + blanks == WrittenToken(ps);
      WrittenTokenIsRead(ps);
    } else {
      TokenThenBlanks(ps, blanks, "");
      assert WrittenToken(ps) + blanks + "" == WrittenToken(ps) + blanks;
    }
  }

  lemma {:induction false} WrittenTokensAreRead(ws: seq<Spaced>)
    requires WellSpaced(ws)
    ensures Split(WrittenAll(ws)) == Words(Tokens(ws))
    decreases |ws|
  {
    if |ws| == 1 {
      TokenAtTheEnd(ws[0].0, ws[0].1);
      assert ws[1..] == [];
      assert WrittenAll(ws) == WrittenToken(ws[0].0) + ws[0].1;
    } else if |ws| > 1 {
      assert forall i | 0 <= i < |ws| - 1 :: ws[1..][i] == ws[i + 1];
      WrittenTokensAreRead(ws[1..]);
      TokenThenBlanks(ws[0].0, ws[0].1, WrittenAll(ws[1..]));
    }
  }

  /** Any list of tokens, written in pieces and set apart by blanks, is read back; blanks around it do not matter. */
  lemma WrittenListIsRead(before: string, ws: seq<Spaced>)
    requires Blanks(before) && WellSpaced(ws)
    ensures Split(before + WrittenAll(ws)) == Words(Tokens(ws))
  {
    BlanksScan(before, WrittenAll(ws));
    WrittenTokensAreRead(ws);
  }

  // ---------------------------------------------------------------- the loop

  lemma PrependTwice(a: seq<string>, b: seq<string>, w: Words)
    ensures Prepend(a, Prepend(b, w)) == Prepend(a + b, w)
  {
    if w.Words? { assert a + (b + w.tokens) == a + b + w.tokens; }
  }

  method ShellSplit(s: string) returns (r: Words)
    ensures r == Split(s)
  {
    var tokens: seq<string> := [];
    var cur := "";
    var inToken := false;
    var i := 0;
    assert s[0..] == s;
    while i < |s|
      invariant 0 <= i <= |s|
      invariant !inToken ==> cur == ""
      invariant Split(s) == Prepend(tokens, Scan(s[i..], Plain, cur, inToken))
    {
      var ch := s[i];
      assert s[i..][0] == ch && s[i..][1..] == s[i + 1..];
      if IsBlank(ch) {
        if inToken {
          PrependTwice(tokens, [cur], Scan(s[i + 1..], Plain, "", false));
          tokens := tokens + [cur];
          cur := "";
          inToken := false;
        }
        i := i + 1;
      } else if ch == '\'' {
        inToken := true;
        i := i + 1;
        while i < |s| && s[i] != '\''
          invariant 0 < i <= |s|
          invariant Split(s) == Prepend(tokens, Scan(s[i..], Single, cur, true))
        {
          assert s[i..][1..] == s[i + 1..];
          cur := cur + [s[i]];
          i := i + 1;
        }
        if i >= |s| {
          return Unclosed;
        }
        assert s[i..][1..] == s[i + 1..];
        i := i + 1;
      } else if ch == '"' {
        inToken := true;
        i := i + 1;
        while i < |s| && s[i] != '"'
          invariant 0 < i <= |s|
          invariant Split(s) == Prepend(tokens, Scan(s[i..], Double, cur, true))
        {
          assert s[i..][1..] == s[i + 1..];
          if s[i] == '\\' && i + 1 < |s| && (s[i + 1] == '"' || s[i + 1] == '\\') {
            assert s[i..][2..] == s[i + 2..];
            cur := cur + [s[i + 1]];
            i := i + 2;
          } else {
            cur := cur + [s[i]];
            i := i + 1;
          }
        }
        if i >= |s| {
          return Unclosed;
        }
        assert s[i..][1..] == s[i + 1..];
        i := i + 1;
      } else {
        inToken := true;
        cur := cur + [ch];
        i := i + 1;
      }
    }
    if inToken {
      tokens := tokens + [cur];
    }
    r := Words(tokens);
  }
}
