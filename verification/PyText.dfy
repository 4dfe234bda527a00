/** The parts of Python's str that normalizers rely on. */
module PyText {
  import opened Prelude

  // The characters str.strip() removes.
  predicate IsSpace(c: char) {
    || '\t' <= c <= '\r' || '\U{1C}' <= c <= ' ' || c == '\U{85}' || c == '\U{A0}' || c == '\U{1680}'
    || '\U{2000}' <= c <= '\U{200A}' || c == '\U{2028}' || c == '\U{2029}' || c == '\U{202F}'
    || c == '\U{205F}' || c == '\U{3000}'
  }

  predicate Stripped(s: string) {
    s == "" || (!IsSpace(s[0]) && !IsSpace(s[|s| - 1]))
  }

  function StripLeft(s: string): string {
    if s != "" && IsSpace(s[0]) then StripLeft(s[1..]) else s
  }

  function StripRight(s: string): string {
    if s != "" && IsSpace(s[|s| - 1]) then StripRight(s[..|s| - 1]) else s
  }

  function Strip(s: string): string {
    StripRight(StripLeft(s))
  }

  lemma {:induction false} StripLeftFirst(s: string)
    ensures StripLeft(s) == "" || !IsSpace(StripLeft(s)[0])
  {
    if s != "" && IsSpace(s[0]) { StripLeftFirst(s[1..]); }
  }

  lemma {:induction false} StripRightLast(s: string)
    ensures StripRight(s) == "" || !IsSpace(StripRight(s)[|StripRight(s)| - 1])
    ensures s == "" || IsSpace(s[0]) || StripRight(s) == "" || StripRight(s)[0] == s[0]
  {
    if s != "" && IsSpace(s[|s| - 1]) { StripRightLast(s[..|s| - 1]); }
  }

  // strip() leaves no outer whitespace and changes nothing that has none.
  lemma StripStrips(s: string)
    ensures Stripped(Strip(s))
    ensures Stripped(s) ==> Strip(s) == s
  {
    StripLeftFirst(s);
    StripRightLast(StripLeft(s));
    if StripLeft(s) != "" && Strip(s) != "" {
      assert Strip(s)[0] == StripLeft(s)[0];
    }
  }

  // str(n)
  function Decimal(n: int): string
    decreases if n < 0 then 1 else 0, if n < 0 then -n else n
  {
    if n < 0 then "-" + Decimal(-n)
    else if n < 10 then ['0' + n as char]
    else Decimal(n / 10) + ['0' + (n % 10) as char]
  }

  // Decimal digits, single underscores between them.
  function ReadDigits(s: string): Option<nat> {
    if s == "" || !('0' <= s[|s| - 1] <= '9') then None
    else
      var digit: nat := s[|s| - 1] as int - '0' as int;
      if |s| == 1 then Some(digit)
      else
        var front := if s[|s| - 2] == '_' then s[..|s| - 2] else s[..|s| - 1];
        match ReadDigits(front)
        case None => None
        case Some(value) => Some(10 * value + digit)
  }

  function Signed(negative: bool, magnitude: Option<nat>): Option<int> {
    if magnitude.None? then None
    else
      var value: int := magnitude.value;
      Some(if negative then -value else value)
  }

  // int(s) for ASCII text.
  function ReadInt(s: string): Option<int> {
    var t := Strip(s);
    if t == "" then None
    else Signed(t[0] == '-', ReadDigits(if t[0] == '-' || t[0] == '+' then t[1..] else t))
  }

  predicate Digits(s: string) {
    s != "" && forall i :: 0 <= i < |s| ==> '0' <= s[i] <= '9'
  }

  lemma {:induction false} DecimalReads(n: nat)
    ensures Digits(Decimal(n)) && ReadDigits(Decimal(n)) == Some(n)
  {
    if n >= 10 {
      DecimalReads(n / 10);
      var front := Decimal(n / 10);
      assert Decimal(n)[..|front|] == front && Decimal(n)[|front| - 1] == front[|front| - 1];
    }
  }

  lemma ReadSigned(sign: string, digits: string)
    requires (sign == "" || sign == "-" || sign == "+") && Digits(digits)
    ensures Strip(sign + digits) == sign + digits
    ensures ReadInt(sign + digits) == Signed(sign == "-", ReadDigits(digits))
  {
    var t := sign + digits;
    assert t[|t| - 1] == digits[|digits| - 1] && Stripped(t);
    StripStrips(t);
    ReadStripped(t);
    if sign == "" {
      assert t == digits;
    } else {
      assert t[1..] == digits;
    }
  }

  lemma ReadStripped(t: string)
    requires Strip(t) == t != ""
    ensures ReadInt(t) == Signed(t[0] == '-', ReadDigits(if t[0] == '-' || t[0] == '+' then t[1..] else t))
  {}

  // int(str(n)) == n
  lemma ReadIntOfDecimal(n: int)
    ensures ReadInt(Decimal(n)) == Some(n) && 'x' !in Decimal(n)
  {
    if n < 0 {
      DecimalReads(-n);
      ReadSigned("-", Decimal(-n));
    } else {
      DecimalReads(n);
      ReadSigned("", Decimal(n));
      assert "" + Decimal(n) == Decimal(n);
    }
  }

  predicate Blank(s: string) {
    forall i :: 0 <= i < |s| ==> IsSpace(s[i])
  }

  lemma {:induction false} StripLeftDrops(s: string) returns (blanks: string)
    ensures s == blanks + StripLeft(s) && Blank(blanks)
  {
    blanks := "";
    if s != "" && IsSpace(s[0]) {
      var more := StripLeftDrops(s[1..]);
      blanks := [s[0]] + more;
      assert s == [s[0]] + s[1..];
    }
  }

  lemma {:induction false} StripRightDrops(s: string) returns (blanks: string)
    ensures s == StripRight(s) + blanks && Blank(blanks)
  {
    blanks := "";
    if s != "" && IsSpace(s[|s| - 1]) {
      var more := StripRightDrops(s[..|s| - 1]);
      blanks := more + [s[|s| - 1]];
      assert s == s[..|s| - 1] + [s[|s| - 1]];
    }
  }

  // strip() takes nothing away but blanks at both ends.
  lemma StripDropsBlanks(s: string) returns (left: string, right: string)
    ensures s == left + Strip(s) + right && Blank(left) && Blank(right)
  {
    left := StripLeftDrops(s);
    right := StripRightDrops(StripLeft(s));
    assert s == left + (Strip(s) + right);
  }

  // s.find(c), or |s| if it is not there.
  function IndexOf(s: string, c: char): nat {
    if s == "" || s[0] == c then 0 else 1 + IndexOf(s[1..], c)
  }

  lemma {:induction false} IndexOfSkips(s: string, c: char, rest: string)
    requires c !in s
    ensures IndexOf(s + [c] + rest, c) == |s|
  {
    if s != "" {
      assert (s + [c] + rest)[1..] == s[1..] + [c] + rest;
      IndexOfSkips(s[1..], c, rest);
    }
  }
}
