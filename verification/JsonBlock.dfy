/** extract_json_block(): brace matching in CLI output (server.py). */
module JsonBlock {
  import opened Prelude

  function Weight(c: char): int {
    if c == '{' then 1 else if c == '}' then -1 else 0
  }

  // Opening minus closing braces.
  function Depth(s: string): int {
    if s == "" then 0 else Depth(s[..|s| - 1]) + Weight(s[|s| - 1])
  }

  predicate Balanced(s: string) {
    Depth(s) == 0
  }

  // Where str.find() starts looking: a negative position counts from the end.
  function SearchFrom(n: nat, pos: int): nat {
    if pos >= 0 then pos else if n + pos >= 0 then n + pos else 0
  }

  // That is str.find()'s rule: a position from 0 on skips that many characters, one
  // below 0 leaves that many, and neither more than there are.
  lemma SearchFromIsFind(text: string, pos: int)
    ensures pos >= 0 ==> SearchFrom(|text|, pos) == pos
    ensures pos < 0 && -pos <= |text| ==> |text[SearchFrom(|text|, pos)..]| == -pos
    ensures pos < 0 && -pos > |text| ==> text[SearchFrom(|text|, pos)..] == text
  {}

  // The block text[i..e] is the first brace at or after `from` and everything up to
  // the first point at which the braces since i balance.
  ghost predicate IsBlock(text: string, from: nat, i: nat, e: nat) {
    && from <= i < e <= |text| && text[i] == '{' && (forall k :: from <= k < i ==> text[k] != '{')
    && Balanced(text[i..e]) && forall k :: i < k < e ==> !Balanced(text[i..k])
  }

  // There is no brace to start from, or the braces from the first one never balance.
  ghost predicate NoBlock(text: string, from: nat) {
    || (forall k :: from <= k < |text| ==> text[k] != '{')
    || exists i: nat :: from <= i < |text| && text[i] == '{' && (forall k :: from <= k < i ==> text[k] != '{')
                   && forall k :: i < k <= |text| ==> !Balanced(text[i..k])
  }

  method ExtractJsonBlock(text: string, startPos: int) returns (block: Option<string>)
    ensures var from := SearchFrom(|text|, startPos);
            match block
            case None => NoBlock(text, from)
            case Some(b) => exists i: nat, e: nat :: IsBlock(text, from, i, e) && b == text[i..e]
  {
    var from := SearchFrom(|text|, startPos);
    var start: int := from;
    while start < |text| && text[start] != '{'
      invariant from <= start && (start <= |text| || start == from)
      invariant forall k :: from <= k < start && k < |text| ==> text[k] != '{'
    {
      start := start + 1;
    }
    if start >= |text| {
      return None;
    }
    var count := 0;
    var i := start;
    while i < |text|
      invariant start <= i <= |text| && count == Depth(text[start..i]) && (start < i ==> count > 0)
      invariant forall k :: start < k <= i ==> !Balanced(text[start..k])
    {
      assert text[start..i + 1][..i - start] == text[start..i];
      assert text[start..i + 1][i - start] == text[i];
      if text[i] == '{' {
        count := count + 1;
      } else if text[i] == '}' {
        count := count - 1;
        if count == 0 {
          assert IsBlock(text, from, start, i + 1);
          return Some(text[start..i + 1]);
        }
      }
      i := i + 1;
    }
    return None;
  }

  // The answer is unique: a block excludes every other block and "no block".
  lemma BlockIsUnique(text: string, from: nat, i: nat, e: nat)
    requires IsBlock(text, from, i, e)
    ensures !NoBlock(text, from)
    ensures forall j: nat, f: nat :: IsBlock(text, from, j, f) ==> j == i && f == e
  {
    assert Balanced(text[i..e]);
  }

  // --------------------------------------------------------- printed JSON objects

  // A printed object: braces around parts, each some text without braces followed
  // by a nested object or nothing.
  datatype Object = Object(parts: seq<Part>, tail: string)
  datatype Part = Part(text: string, nested: Object)

  predicate NoBraces(s: string) {
    forall i :: 0 <= i < |s| ==> s[i] != '{' && s[i] != '}'
  }

  predicate Plain(o: Object) {
    NoBraces(o.tail) && forall i :: 0 <= i < |o.parts| ==> NoBraces(o.parts[i].text) && Plain(o.parts[i].nested)
  }

  function Print(o: Object): string {
    "{" + PrintParts(o.parts) + o.tail + "}"
  }

  function PrintParts(parts: seq<Part>): string {
    if parts == [] then ""
    else parts[0].text + Print(parts[0].nested) + PrintParts(parts[1..])
  }

  lemma {:induction false} DepthConcat(a: string, b: string)
    ensures Depth(a + b) == Depth(a) + Depth(b)
  {
    if b == "" {
      assert a + b == a;
    } else {
      assert (a + b)[..|a + b| - 1] == a + b[..|b| - 1];
      DepthConcat(a, b[..|b| - 1]);
    }
  }

  lemma {:induction false} NoBracesDepth(s: string)
    requires NoBraces(s)
    ensures Depth(s) == 0
  {
    if s != "" { NoBracesDepth(s[..|s| - 1]); }
  }

  // A text is closed when its braces balance and never go below where they started.
  ghost predicate Closed(s: string) {
    Depth(s) == 0 && forall k :: 0 <= k <= |s| ==> Depth(s[..k]) >= 0
  }

  lemma NoBracesClosed(s: string)
    requires NoBraces(s)
    ensures Closed(s)
  {
    NoBracesDepth(s);
    forall k | 0 <= k <= |s| ensures Depth(s[..k]) >= 0 { NoBracesDepth(s[..k]); }
  }

  lemma ClosedConcat(a: string, b: string)
    requires Closed(a) && Closed(b)
    ensures Closed(a + b)
  {
    DepthConcat(a, b);
    forall k | 0 <= k <= |a + b| ensures Depth((a + b)[..k]) >= 0 {
      if k <= |a| {
        assert (a + b)[..k] == a[..k];
      } else {
        assert (a + b)[..k] == a + b[..k - |a|];
        DepthConcat(a, b[..k - |a|]);
      }
    }
  }

  // Inside braces, a closed text stays above the outer level until the last brace.
  lemma Enclosed(s: string)
    requires Closed(s)
    ensures Closed("{" + s + "}")
    ensures forall k :: 0 < k <= |s| + 1 ==> Depth(("{" + s + "}")[..k]) > 0
  {
    var t := "{" + s + "}";
    assert Depth("{") == 1 && Depth("}") == -1 by {
      assert "{"[..0] == "" && "}"[..0] == "";
    }
    forall k | 0 < k <= |s| + 1 ensures Depth(t[..k]) > 0 {
      assert t[..k] == "{" + s[..k - 1];
      DepthConcat("{", s[..k - 1]);
    }
    DepthConcat("{", s);
    DepthConcat("{" + s, "}");
    assert t[..|t|] == t && t[..0] == "";
  }

  lemma {:induction false} PartsClosed(parts: seq<Part>)
    requires forall i :: 0 <= i < |parts| ==> NoBraces(parts[i].text) && Plain(parts[i].nested)
    ensures Closed(PrintParts(parts))
  {
    if parts == [] {
      NoBracesClosed("");
    } else {
      NoBracesClosed(parts[0].text);
      PrintClosed(parts[0].nested);
      PartsClosed(parts[1..]);
      ClosedConcat(parts[0].text, Print(parts[0].nested));
      ClosedConcat(parts[0].text + Print(parts[0].nested), PrintParts(parts[1..]));
    }
  }

  lemma {:induction false} PrintClosed(o: Object)
    requires Plain(o)
    ensures Closed(Print(o))
    ensures forall k :: 0 < k < |Print(o)| ==> Depth(Print(o)[..k]) > 0
  {
    PartsClosed(o.parts);
    NoBracesClosed(o.tail);
    ClosedConcat(PrintParts(o.parts), o.tail);
    Enclosed(PrintParts(o.parts) + o.tail);
    assert Print(o) == "{" + (PrintParts(o.parts) + o.tail) + "}";
  }

  // Reading undoes printing: from any position with no opening brace between it and a
  // printed object, the object is the block, whatever comes before and after.
  lemma PrintedObjectIsTheBlock(before: string, o: Object, after: string, from: nat)
    requires Plain(o) && from <= |before| && forall i :: from <= i < |before| ==> before[i] != '{'
    ensures IsBlock(before + Print(o) + after, from, |before|, |before| + |Print(o)|)
    ensures (before + Print(o) + after)[|before|..|before| + |Print(o)|] == Print(o)
  {
    var text := before + Print(o) + after;
    PrintClosed(o);
    assert text[|before|..|before| + |Print(o)|] == Print(o);
    forall k | |before| < k < |before| + |Print(o)| ensures !Balanced(text[|before|..k]) {
      assert text[|before|..k] == Print(o)[..k - |before|];
    }
    assert text[|before|] == Print(o)[0];
  }

  // Hence what the search returns.
  method ExtractPrinted(before: string, o: Object, after: string, startPos: int) returns (block: Option<string>)
    requires var from := SearchFrom(|before + Print(o) + after|, startPos);
             Plain(o) && from <= |before| && forall i :: from <= i < |before| ==> before[i] != '{'
    ensures block == Some(Print(o))
  {
    var text := before + Print(o) + after;
    var from := SearchFrom(|text|, startPos);
    block := ExtractJsonBlock(text, startPos);
    PrintedObjectIsTheBlock(before, o, after, from);
    BlockIsUnique(text, from, |before|, |before| + |Print(o)|);
  }
}
