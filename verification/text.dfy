/** The string operations the program leans on: folding (ASCII letters), trimming, joining and splitting. */
module Text {

  function LowerChar(c: char): char {
    if 'A' <= c <= 'Z' then c - 'A' + 'a' else c
  }

  function Lower(s: string): (r: string)
    ensures |r| == |s|
  {
    if s == "" then "" else [LowerChar(s[0])] + Lower(s[1..])
  }

  /** Folding changes the capitals of ASCII and nothing else, each in its place. */
  lemma {:induction false} LowerAt(s: string, i: nat)
    requires i < |s|
    ensures Lower(s)[i] == if 'A' <= s[i] <= 'Z' then s[i] + ' ' else s[i]
  {
    if 0 < i {
      LowerAt(s[1..], i - 1);
    }
  }

  predicate EqualFold(a: string, b: string) { Lower(a) == Lower(b) }

  predicate IsSpace(c: char) {
    || '\t' <= c <= '\r' || c == ' ' || c == '\U{85}' || c == '\U{A0}' || c == '\U{1680}'
    || '\U{2000}' <= c <= '\U{200A}' || '\U{2028}' <= c <= '\U{2029}'
    || c == '\U{202F}' || c == '\U{205F}' || c == '\U{3000}'
  }

  function TrimLeft(s: string): string {
    if s != "" && IsSpace(s[0]) then TrimLeft(s[1..]) else s
  }

  function TrimRight(s: string): string {
    if s != "" && IsSpace(s[|s| - 1]) then TrimRight(s[..|s| - 1]) else s
  }

  function TrimSpace(s: string): string { TrimRight(TrimLeft(s)) }

  predicate Trimmed(s: string) {
    s == "" || (!IsSpace(s[0]) && !IsSpace(s[|s| - 1]))
  }

  lemma TrimmedIsFixed(s: string)
    requires Trimmed(s)
    ensures TrimSpace(s) == s
  {}

  lemma {:induction false} TrimRightEnds(s: string)
    ensures TrimRight(s) != "" ==> !IsSpace(TrimRight(s)[|TrimRight(s)| - 1]) && TrimRight(s)[0] == s[0]
  {
    if s != "" && IsSpace(s[|s| - 1]) {
      TrimRightEnds(s[..|s| - 1]);
    }
  }

  lemma {:induction false} TrimLeftStarts(s: string)
    ensures TrimLeft(s) != "" ==> !IsSpace(TrimLeft(s)[0])
  {
    if s != "" && IsSpace(s[0]) {
      TrimLeftStarts(s[1..]);
    }
  }

  lemma TrimSpaceIsTrimmed(s: string)
    ensures Trimmed(TrimSpace(s))
  {
    TrimLeftStarts(s);
    TrimRightEnds(TrimLeft(s));
  }

  lemma TrimmedIffFixed(s: string)
    ensures Trimmed(s) <==> TrimSpace(s) == s
  {
    TrimSpaceIsTrimmed(s);
    if Trimmed(s) {
      TrimmedIsFixed(s);
    }
  }

  predicate Blank(s: string) { forall i :: 0 <= i < |s| ==> IsSpace(s[i]) }

  lemma {:induction false} TrimLeftBlank(s: string)
    ensures TrimLeft(s) == "" <==> Blank(s)
    ensures TrimLeft(s) != "" ==> !IsSpace(TrimLeft(s)[0])
  {
    if s != "" && IsSpace(s[0]) {
      TrimLeftBlank(s[1..]);
      assert Blank(s) <==> Blank(s[1..]) by {
        if Blank(s[1..]) {
          forall i | 0 <= i < |s| ensures IsSpace(s[i]) { if 0 < i { assert s[i] == s[1..][i - 1]; } }
        }
      }
    }
  }

  lemma {:induction false} TrimRightKeepsFirst(s: string)
    requires s != "" && !IsSpace(s[0])
    ensures TrimRight(s) != ""
  {
    if IsSpace(s[|s| - 1]) {
      TrimRightKeepsFirst(s[..|s| - 1]);
    }
  }

  /** A string trims to nothing exactly when it holds nothing but space. */
  lemma TrimSpaceBlank(s: string)
    ensures TrimSpace(s) == "" <==> Blank(s)
  {
    TrimLeftBlank(s);
    if TrimLeft(s) != "" {
      TrimRightKeepsFirst(TrimLeft(s));
    }
  }

  /** Trimming takes space off both ends, and nothing else. */
  lemma TrimSpaceTakesSpace(s: string) returns (before: string, after: string)
    ensures s == before + TrimSpace(s) + after && Blank(before) && Blank(after)
  {
    before := LeftSpace(s);
    after := RightSpace(TrimLeft(s));
  }

  lemma {:induction false} LeftSpace(s: string) returns (space: string)
    ensures s == space + TrimLeft(s) && Blank(space)
  {
    space := "";
    if s != "" && IsSpace(s[0]) {
      var rest := LeftSpace(s[1..]);
      space := [s[0]] + rest;
    }
  }

  lemma {:induction false} RightSpace(s: string) returns (space: string)
    ensures s == TrimRight(s) + space && Blank(space)
  {
    space := "";
    if s != "" && IsSpace(s[|s| - 1]) {
      var rest := RightSpace(s[..|s| - 1]);
      space := rest + [s[|s| - 1]];
    }
  }

  /** What counts as space: the 25 characters of Unicode's White_Space property. */
  lemma SpacesAre(c: char)
    ensures IsSpace(c) <==>
            c in {'\t', '\n', '\U{B}', '\U{C}', '\r', ' ', '\U{85}', '\U{A0}', '\U{1680}', '\U{2000}', '\U{2001}',
                  '\U{2002}', '\U{2003}', '\U{2004}', '\U{2005}', '\U{2006}', '\U{2007}', '\U{2008}', '\U{2009}',
                  '\U{200A}', '\U{2028}', '\U{2029}', '\U{202F}', '\U{205F}', '\U{3000}'}
  {}

  // ---- Comma lists ----

  function Join(parts: seq<string>): string {
    if |parts| == 0 then ""
    else if |parts| == 1 then parts[0]
    else parts[0] + "," + Join(parts[1..])
  }

  /** strings.Split with ",": always at least one part. */
  function Split(s: string): (parts: seq<string>)
    ensures 1 <= |parts|
  {
    if s == "" then [""]
    else if s[0] == ',' then [""] + Split(s[1..])
    else var rest := Split(s[1..]); [[s[0]] + rest[0]] + rest[1..]
  }

  predicate CommaFree(s: string) { ',' !in s }

  lemma {:induction false} SplitCommaFree(s: string)
    requires CommaFree(s)
    ensures Split(s) == [s]
  {
    if s != "" {
      SplitCommaFree(s[1..]);
      assert s == [s[0]] + s[1..];
    }
  }

  lemma {:induction false} SplitFirst(head: string, tail: string)
    requires CommaFree(head)
    ensures Split(head + "," + tail) == [head] + Split(tail)
  {
    var s := head + "," + tail;
    if head == "" {
      assert s[1..] == tail;
    } else {
      assert s[1..] == head[1..] + "," + tail;
      SplitFirst(head[1..], tail);
      assert head == [head[0]] + head[1..];
    }
  }

  lemma {:induction false} SplitParts(s: string)
    ensures forall p :: p in Split(s) ==> CommaFree(p)
  {
    if s != "" {
      SplitParts(s[1..]);
      assert Split(s[1..])[0] in Split(s[1..]);
    }
  }

  /** Joining undoes splitting always; splitting undoes joining exactly for comma-free parts, at least one. */
  lemma {:induction false} SplitJoin(parts: seq<string>)
    ensures Split(Join(parts)) == parts <==> 1 <= |parts| && forall p :: p in parts ==> CommaFree(p)
  {
    if 1 <= |parts| && forall p :: p in parts ==> CommaFree(p) {
      if |parts| == 1 {
        SplitCommaFree(parts[0]);
      } else {
        SplitJoin(parts[1..]);
        SplitFirst(parts[0], Join(parts[1..]));
      }
    } else {
      SplitParts(Join(parts));
    }
  }
}
