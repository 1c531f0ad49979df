/**
 Reading and rewriting the JWT block of a NATS credentials file (daemon.go).

 A file is its text. `ReadFrom` and `Rewrite` are the two line loops as functions of the lines;
 the laws relate them on the text, through splitting and joining at newlines.
 */
module CredsFile {
  import opened Basics

  const BEGIN := "BEGIN NATS USER JWT"
  const END := "END NATS USER JWT"

  // ---------------------------------------------------------------- strings

  function Lines(s: string): (ls: seq<string>)
    ensures ls != []
  {
    if s == "" then [""]
    else
      var rest := Lines(s[1..]);
      if s[0] == '\n' then [""] + rest else [[s[0]] + rest[0]] + rest[1..]
  }

  function Join(ls: seq<string>): string {
    if ls == [] then "" else if |ls| == 1 then ls[0] else ls[0] + "\n" + Join(ls[1..])
  }

  predicate OneLine(s: string) { '\n' !in s }

  predicate AllOneLine(ls: seq<string>) { forall l <- ls :: OneLine(l) }

  /** White space as trimmed from both ends of a line. */
  predicate IsSpace(c: char) {
    || c in "\t\n\r "
    || c in {'\U{0b}', '\U{0c}', '\U{85}', '\U{a0}', '\U{1680}', '\U{2028}', '\U{2029}', '\U{202f}', '\U{205f}',
        '\U{3000}'}
    || '\U{2000}' <= c <= '\U{200a}'
  }

  function TrimLeft(s: string): string {
    if s != "" && IsSpace(s[0]) then TrimLeft(s[1..]) else s
  }

  function TrimRight(s: string): string {
    if s != "" && IsSpace(s[|s| - 1]) then TrimRight(s[..|s| - 1]) else s
  }

  function Trim(s: string): string { TrimRight(TrimLeft(s)) }

  predicate Contains(s: string, part: string) {
    exists i | 0 <= i <= |s| :: PartAt(s, part, i)
  }

  predicate PartAt(s: string, part: string, i: nat)
    requires i <= |s|
  {
    part <= s[i..]
  }

  predicate IsBegin(line: string) { Contains(Trim(line), BEGIN) }
  predicate IsEnd(line: string) { !IsBegin(line) && Contains(Trim(line), END) }
  predicate IsMarker(line: string) { IsBegin(line) || IsEnd(line) }

  /** A token that can stand as the one line of a block. */
  predicate CleanToken(t: string) { OneLine(t) && Trim(t) != "" && !IsMarker(t) }

  // ---------------------------------------------------------------- the two loops as functions

  function ReadFrom(ls: seq<string>, inJWT: bool): Option<string> {
    if ls == [] then None
    else if IsBegin(ls[0]) then ReadFrom(ls[1..], true)
    else if IsEnd(ls[0]) then None
    else if inJWT && Trim(ls[0]) != "" then Some(Trim(ls[0]))
    else ReadFrom(ls[1..], inJWT)
  }

  function Rewrite(ls: seq<string>, t: string, inJWT: bool): seq<string> {
    if ls == [] then []
    else if IsBegin(ls[0]) then [ls[0], t] + Rewrite(ls[1..], t, true)
    else if IsEnd(ls[0]) then [ls[0]] + Rewrite(ls[1..], t, false)
    else if inJWT then Rewrite(ls[1..], t, true)
    else [ls[0]] + Rewrite(ls[1..], t, false)
  }

  function Read(text: string): Option<string> { ReadFrom(Lines(text), false) }
  function Write(text: string, t: string): string { Join(Rewrite(Lines(text), t, false)) }

  // ---------------------------------------------------------------- splitting and joining

  lemma {:induction false} LinesOfLine(s: string)
    requires OneLine(s)
    ensures Lines(s) == [s]
  {
    if s != "" {
      LinesOfLine(s[1..]);
      assert [s[0]] + s[1..] == s;
    }
  }

  lemma {:induction false} LinesAfterLine(a: string, s: string)
    requires OneLine(a)
    ensures Lines(a + "\n" + s) == [a] + Lines(s)
  {
    var x := a + "\n" + s;
    if a == "" {
      assert x[1..] == s;
    } else {
      assert x[0] == a[0] && x[1..] == a[1..] + "\n" + s;
      LinesAfterLine(a[1..], s);
      assert [a[0]] + a[1..] == a;
    }
  }

  lemma {:induction false} LinesOfJoin(ls: seq<string>)
    requires ls != [] && AllOneLine(ls)
    ensures Lines(Join(ls)) == ls
  {
    if |ls| == 1 {
      LinesOfLine(ls[0]);
    } else {
      LinesOfJoin(ls[1..]);
      LinesAfterLine(ls[0], Join(ls[1..]));
    }
  }

  lemma {:induction false} LinesAreOneLine(s: string)
    ensures AllOneLine(Lines(s))
  {
    if s != "" {
      LinesAreOneLine(s[1..]);
      var rest := Lines(s[1..]);
      assert rest[0] in rest;
      forall l <- Lines(s) ensures OneLine(l) {
        if s[0] == '\n' { assert l == "" || l in rest; } else { assert l == [s[0]] + rest[0] || l in rest; }
      }
    }
  }

  // ---------------------------------------------------------------- laws on lines

  lemma {:induction false} RewriteKeepsOneLine(ls: seq<string>, t: string, inJWT: bool)
    requires AllOneLine(ls) && OneLine(t)
    ensures AllOneLine(Rewrite(ls, t, inJWT))
  {
    if ls != [] {
      RewriteKeepsOneLine(ls[1..], t, if IsBegin(ls[0]) then true else if IsEnd(ls[0]) then false else inJWT);
    }
  }

  /** The first marker line, if there is one, is a BEGIN line. */
  predicate BeginsFirst(ls: seq<string>) {
    ls != [] && (IsBegin(ls[0]) || (!IsEnd(ls[0]) && BeginsFirst(ls[1..])))
  }

  lemma {:induction false} ReadRewritten(ls: seq<string>, t: string)
    requires CleanToken(t)
    ensures ReadFrom(Rewrite(ls, t, false), false) == if BeginsFirst(ls) then Some(Trim(t)) else None
  {
    if ls != [] {
      var r := Rewrite(ls, t, false);
      if IsBegin(ls[0]) {
        assert r[1..][0] == t;
      } else if !IsEnd(ls[0]) {
        ReadRewritten(ls[1..], t);
        assert r[1..] == Rewrite(ls[1..], t, false);
      }
    }
  }

  /** The lines that are not the content of a JWT block. */
  function Outside(ls: seq<string>, inJWT: bool): seq<string> {
    if ls == [] then []
    else if IsMarker(ls[0]) then [ls[0]] + Outside(ls[1..], IsBegin(ls[0]))
    else (if inJWT then [] else [ls[0]]) + Outside(ls[1..], inJWT)
  }

  /** The contents of the JWT blocks, one entry a line. */
  function Inside(ls: seq<string>, inJWT: bool): seq<string> {
    if ls == [] then []
    else if IsMarker(ls[0]) then Inside(ls[1..], IsBegin(ls[0]))
    else (if inJWT then [ls[0]] else []) + Inside(ls[1..], inJWT)
  }

  function Begins(ls: seq<string>): nat {
    if ls == [] then 0 else (if IsBegin(ls[0]) then 1 else 0) + Begins(ls[1..])
  }

  function Copies(n: nat, t: string): seq<string> {
    if n == 0 then [] else [t] + Copies(n - 1, t)
  }

  lemma {:induction false} RewriteKeepsOutside(ls: seq<string>, t: string, inJWT: bool)
    requires CleanToken(t)
    ensures Outside(Rewrite(ls, t, inJWT), inJWT) == Outside(ls, inJWT)
  {
    if ls != [] {
      var r := Rewrite(ls, t, inJWT);
      if IsBegin(ls[0]) {
        RewriteKeepsOutside(ls[1..], t, true);
        assert r[1..][0] == t && r[1..][1..] == Rewrite(ls[1..], t, true);
      } else if IsEnd(ls[0]) {
        RewriteKeepsOutside(ls[1..], t, false);
        assert r[1..] == Rewrite(ls[1..], t, false);
      } else {
        RewriteKeepsOutside(ls[1..], t, inJWT);
        if !inJWT { assert r[1..] == Rewrite(ls[1..], t, false); }
      }
    }
  }

  lemma {:induction false} RewriteFillsBlocks(ls: seq<string>, t: string, inJWT: bool)
    requires CleanToken(t)
    ensures Inside(Rewrite(ls, t, inJWT), inJWT) == Copies(Begins(ls), t)
  {
    if ls != [] {
      var r := Rewrite(ls, t, inJWT);
      if IsBegin(ls[0]) {
        RewriteFillsBlocks(ls[1..], t, true);
        assert r[1..][0] == t && r[1..][1..] == Rewrite(ls[1..], t, true);
      } else if IsEnd(ls[0]) {
        RewriteFillsBlocks(ls[1..], t, false);
        assert r[1..] == Rewrite(ls[1..], t, false);
      } else {
        RewriteFillsBlocks(ls[1..], t, inJWT);
        if !inJWT { assert r[1..] == Rewrite(ls[1..], t, false); }
      }
    }
  }

  lemma {:induction false} RewriteTwice(ls: seq<string>, a: string, b: string, inJWT: bool)
    requires !IsMarker(a)
    ensures Rewrite(Rewrite(ls, a, inJWT), b, inJWT) == Rewrite(ls, b, inJWT)
  {
    if ls != [] {
      var r := Rewrite(ls, a, inJWT);
      if IsBegin(ls[0]) {
        RewriteTwice(ls[1..], a, b, true);
        assert r[1..][0] == a && r[1..][1..] == Rewrite(ls[1..], a, true);
      } else if IsEnd(ls[0]) {
        RewriteTwice(ls[1..], a, b, false);
        assert r[1..] == Rewrite(ls[1..], a, false);
      } else {
        RewriteTwice(ls[1..], a, b, inJWT);
        if !inJWT { assert r[1..] == Rewrite(ls[1..], a, false); }
      }
    }
  }

  // ---------------------------------------------------------------- what a line is

  predicate AllSpace(s: string) { forall c <- s :: IsSpace(c) }

  lemma {:induction false} TrimmedLeft(s: string) returns (a: string)
    ensures s == a + TrimLeft(s) && AllSpace(a) && (TrimLeft(s) != "" ==> !IsSpace(TrimLeft(s)[0]))
  {
    a := "";
    if s != "" && IsSpace(s[0]) {
      a := TrimmedLeft(s[1..]);
      a := [s[0]] + a;
    }
  }

  lemma {:induction false} TrimmedRight(s: string) returns (b: string)
    ensures s == TrimRight(s) + b && AllSpace(b) && (TrimRight(s) != "" ==> !IsSpace(TrimRight(s)[|TrimRight(s)| - 1]))
  {
    b := "";
    if s != "" && IsSpace(s[|s| - 1]) {
      b := TrimmedRight(s[..|s| - 1]);
      b := b + [s[|s| - 1]];
    }
  }

  /** Trimming takes off all the space around a line and nothing else. */
  lemma TrimIsExact(s: string) returns (a: string, b: string)
    ensures s == a + Trim(s) + b && AllSpace(a) && AllSpace(b)
    ensures Trim(s) != "" ==> !IsSpace(Trim(s)[0]) && !IsSpace(Trim(s)[|Trim(s)| - 1])
  {
    a := TrimmedLeft(s);
    b := TrimmedRight(TrimLeft(s));
  }

  lemma SpaceIff(c: char)
    requires c < 128 as char
    ensures IsSpace(c) <==> c == ' ' || '\U{9}' <= c <= '\U{d}'
  {}

  lemma ContainsIff(s: string, part: string)
    ensures Contains(s, part) <==> exists a, b :: s == a + part + b
  {
    if Contains(s, part) {
      var i :| 0 <= i <= |s| && PartAt(s, part, i);
      assert s == s[..i] + part + s[i + |part|..];
    }
    if a, b :| s == a + part + b {
      assert s[|a|..] == part + b;
      assert PartAt(s, part, |a|);
    }
  }

  /** The marker lines; a line that holds both markers begins a block. */
  lemma MarkersIff(line: string)
    ensures IsBegin(line) <==> exists a, b :: Trim(line) == a + "BEGIN NATS USER JWT" + b
    ensures IsEnd(line) <==> !IsBegin(line) && exists a, b :: Trim(line) == a + "END NATS USER JWT" + b
  {
    ContainsIff(Trim(line), BEGIN);
    ContainsIff(Trim(line), END);
  }

  /** A block has begun before line `k`. */
  predicate Begun(ls: seq<string>, inJWT: bool, k: nat)
    requires k <= |ls|
  {
    inJWT || exists i | 0 <= i < k :: IsBegin(ls[i])
  }

  /** Line `j` is the first content of the first block: no END comes before it, and only blank lines in the block. */
  ghost predicate TokenAt(ls: seq<string>, inJWT: bool, j: nat, t: string) {
    && j < |ls| && t == Trim(ls[j]) != "" && !IsMarker(ls[j]) && Begun(ls, inJWT, j)
    && forall k: nat | k < j :: !IsEnd(ls[k]) && (IsBegin(ls[k]) || !Begun(ls, inJWT, k) || Trim(ls[k]) == "")
  }

  lemma BegunTail(ls: seq<string>, inJWT: bool, k: nat)
    requires 0 < k <= |ls|
    ensures Begun(ls, inJWT, k) <==> Begun(ls[1..], inJWT || IsBegin(ls[0]), k - 1)
  {
    assert forall i | 0 < i < k :: ls[i] == ls[1..][i - 1];
    if i :| 0 <= i < k - 1 && IsBegin(ls[1..][i]) { assert IsBegin(ls[i + 1]); }
  }

  lemma TokenTail(ls: seq<string>, inJWT: bool, j: nat, t: string)
    requires 0 < j < |ls|
    ensures TokenAt(ls, inJWT, j, t) <==>
            && !IsEnd(ls[0]) && (IsBegin(ls[0]) || !inJWT || Trim(ls[0]) == "")
            && TokenAt(ls[1..], inJWT || IsBegin(ls[0]), j - 1, t)
  {
    var tail, now := ls[1..], inJWT || IsBegin(ls[0]);
    forall k: nat | 0 < k <= j ensures Begun(ls, inJWT, k) <==> Begun(tail, now, k - 1) { BegunTail(ls, inJWT, k); }
    assert forall k: nat | 0 < k <= j :: ls[k] == tail[k - 1];
    assert Begun(ls, inJWT, 0) <==> inJWT;
    if TokenAt(tail, now, j - 1, t) && !IsEnd(ls[0]) && (IsBegin(ls[0]) || !inJWT || Trim(ls[0]) == "") {
      forall k: nat | k < j ensures !IsEnd(ls[k]) && (IsBegin(ls[k]) || !Begun(ls, inJWT, k) || Trim(ls[k]) == "") {
        if k > 0 { assert !IsEnd(tail[k - 1]); }
      }
    }
    if TokenAt(ls, inJWT, j, t) {
      forall k: nat | k < j - 1 ensures !IsEnd(tail[k])
          && (IsBegin(tail[k]) || !Begun(tail, now, k) || Trim(tail[k]) == "") {
        assert !IsEnd(ls[k + 1]);
      }
    }
  }

  /** Reading gives exactly that line, trimmed, if there is one. */
  lemma {:induction false} ReadIff(ls: seq<string>, inJWT: bool, t: string)
    ensures ReadFrom(ls, inJWT) == Some(t) <==> exists j: nat :: TokenAt(ls, inJWT, j, t)
  {
    if ls != [] {
      var tail, now := ls[1..], inJWT || IsBegin(ls[0]);
      ReadIff(tail, now, t);
      assert Begun(ls, inJWT, 0) <==> inJWT;
      if j: nat :| TokenAt(ls, inJWT, j, t) {
        if j > 0 { TokenTail(ls, inJWT, j, t); }
      }
      if ReadFrom(ls, inJWT) == Some(t) {
        if !IsMarker(ls[0]) && inJWT && Trim(ls[0]) != "" {
          assert TokenAt(ls, inJWT, 0, t);
        } else {
          var j: nat :| TokenAt(tail, now, j, t);
          TokenTail(ls, inJWT, j + 1, t);
        }
      }
    }
  }

  // ---------------------------------------------------------------- laws on files

  lemma LinesOfWrite(text: string, t: string)
    requires OneLine(t)
    ensures Lines(Write(text, t)) == Rewrite(Lines(text), t, false)
  {
    LinesAreOneLine(text);
    RewriteKeepsOneLine(Lines(text), t, false);
    LinesOfJoin(Rewrite(Lines(text), t, false));
  }

  /** A written token is read back, trimmed, exactly when the first marker line is BEGIN. */
  lemma ReadAfterWriteIff(text: string, t: string)
    requires CleanToken(t)
    ensures Read(Write(text, t)) == Some(Trim(t)) <==> BeginsFirst(Lines(text))
  {
    LinesOfWrite(text, t);
    ReadRewritten(Lines(text), t);
  }

  /** Writing keeps every line outside the blocks, in order, and leaves each block holding the token alone. */
  lemma WriteOnlyChangesBlocks(text: string, t: string)
    requires CleanToken(t)
    ensures Outside(Lines(Write(text, t)), false) == Outside(Lines(text), false)
    ensures Inside(Lines(Write(text, t)), false) == Copies(Begins(Lines(text)), t)
  {
    LinesOfWrite(text, t);
    RewriteKeepsOutside(Lines(text), t, false);
    RewriteFillsBlocks(Lines(text), t, false);
  }

  /** The last write wins. */
  lemma WriteTwice(text: string, a: string, b: string)
    requires OneLine(a) && !IsMarker(a)
    ensures Write(Write(text, a), b) == Write(text, b)
  {
    LinesOfWrite(text, a);
    RewriteTwice(Lines(text), a, b, false);
  }

  // ---------------------------------------------------------------- the loops

  /** `file` is None when the file cannot be read. */
  method ReadJWTFromCredsFile(file: Option<string>) returns (jwt: Option<string>)
    ensures jwt == if file.Some? then Read(file.value) else None
  {
    if file.None? { return None; }
    var lines := Lines(file.value);
    var inJWT := false;
    for i := 0 to |lines|
      invariant Read(file.value) == ReadFrom(lines[i..], inJWT)
    {
      var trimmed := Trim(lines[i]);
      assert lines[i..][1..] == lines[i + 1..];
      if Contains(trimmed, BEGIN) {
        inJWT := true;
      } else if Contains(trimmed, END) {
        return None;
      } else if inJWT && trimmed != "" {
        return Some(trimmed);
      }
    }
    return None;
  }

  lemma {:induction false} RewriteStep(out: seq<string>, ls: seq<string>, t: string, inJWT: bool)
    requires ls != []
    ensures out + Rewrite(ls, t, inJWT) ==
            if IsBegin(ls[0]) then out + [ls[0]] + [t] + Rewrite(ls[1..], t, true)
            else if IsEnd(ls[0]) then out + [ls[0]] + Rewrite(ls[1..], t, false)
            else if inJWT then out + Rewrite(ls[1..], t, true)
            else out + [ls[0]] + Rewrite(ls[1..], t, false)
  {
    if IsBegin(ls[0]) {
      assert out + ([ls[0], t] + Rewrite(ls[1..], t, true)) == out + [ls[0]] + [t] + Rewrite(ls[1..], t, true);
    } else {
      assert out + ([ls[0]] + Rewrite(ls[1..], t, false)) == out + [ls[0]] + Rewrite(ls[1..], t, false);
    }
  }

  /** The new file contents, or None when the file cannot be read. */
  method WriteJWTToCredsFile(file: Option<string>, newJWT: string) returns (written: Option<string>)
    ensures written == if file.Some? then Some(Write(file.value, newJWT)) else None
  {
    if file.None? { return None; }
    var lines := Lines(file.value);
    var out: seq<string> := [];
    var inJWT := false;
    for i := 0 to |lines|
      invariant Rewrite(lines, newJWT, false) == out + Rewrite(lines[i..], newJWT, inJWT)
    {
      var line := lines[i];
      var trimmed := Trim(line);
      assert lines[i..][0] == line && lines[i..][1..] == lines[i + 1..];
      RewriteStep(out, lines[i..], newJWT, inJWT);
      if Contains(trimmed, BEGIN) {
        inJWT := true;
        out := out + [line];
        out := out + [newJWT];
        continue;
      }
      if Contains(trimmed, END) {
        inJWT := false;
        out := out + [line];
        continue;
      }
      if inJWT {
        continue;
      }
      out := out + [line];
    }
    assert lines[|lines|..] == [] && out + [] == out;
    return Some(Join(out));
  }
}
