/** The string operations the expense search relies on: `toLowerCase`,
    `trim` and `includes`. Lower-casing is modelled on the ASCII letters only. */
module Text {

  predicate IsUpper(c: char) {
    'A' <= c <= 'Z'
  }

  function LowerChar(c: char): char {
    if IsUpper(c) then (c as int + 32) as char else c
  }

  /** `s.toLowerCase()`: every upper-case letter replaced by its lower-case
      form, every other character kept. */
  function ToLower(s: string): (r: string)
    ensures |r| == |s|
    ensures forall i :: 0 <= i < |r| ==> !IsUpper(r[i])
    ensures forall i :: 0 <= i < |s| && !IsUpper(s[i]) ==> r[i] == s[i]
    ensures forall i :: 0 <= i < |s| && IsUpper(s[i]) ==> r[i] as int == s[i] as int + 32
  {
    seq(|s|, i requires 0 <= i < |s| => LowerChar(s[i]))
  }

  /** Lower-casing a lower-case string changes nothing. */
  lemma {:induction false} ToLowerIdempotent(s: string)
    ensures ToLower(ToLower(s)) == ToLower(s)
  {
  }

  /** The characters `trim` removes: the ECMAScript WhiteSpace and
      LineTerminator code points. */
  predicate IsJsSpace(c: char) {
    var n := c as int;
    (9 <= n <= 13) || n == 0x20 || n == 0xA0 || n == 0x1680 || (0x2000 <= n <= 0x200A)
    || n == 0x2028 || n == 0x2029 || n == 0x202F || n == 0x205F || n == 0x3000 || n == 0xFEFF
  }

  function TrimStart(s: string): (r: string)
    ensures |r| <= |s| && r == s[|s| - |r|..]
    ensures |r| > 0 ==> !IsJsSpace(r[0])
    ensures forall i :: 0 <= i < |s| - |r| ==> IsJsSpace(s[i])
  {
    if |s| > 0 && IsJsSpace(s[0]) then TrimStart(s[1..]) else s
  }

  function TrimEnd(s: string): (r: string)
    ensures |r| <= |s| && r == s[..|r|]
    ensures |r| > 0 ==> !IsJsSpace(r[|r| - 1])
    ensures forall i :: |r| <= i < |s| ==> IsJsSpace(s[i])
  {
    if |s| > 0 && IsJsSpace(s[|s| - 1]) then TrimEnd(s[..|s| - 1]) else s
  }

  /** `s.trim()`. */
  function Trim(s: string): string {
    TrimEnd(TrimStart(s))
  }

  /** `s.trim()` is truthy exactly when `s` has a character that is not
      white space. */
  lemma {:induction false} TrimEmptyIff(s: string)
    ensures |Trim(s)| == 0 <==> forall i :: 0 <= i < |s| ==> IsJsSpace(s[i])
  {
    var t := TrimStart(s);
    if |Trim(s)| == 0 {
      assert |t| == 0;
    } else if |t| > 0 {
      assert s[|s| - |t|] == t[0];
    }
  }

  /** `q` occurs in `s` starting at position `i`. */
  predicate Occurs(s: string, q: string, i: nat) {
    i + |q| <= |s| && s[i..i + |q|] == q
  }

  lemma {:induction false} OccursShift(s: string, q: string)
    requires |s| > 0
    ensures forall j: nat :: Occurs(s[1..], q, j) ==> Occurs(s, q, j + 1)
    ensures forall i: nat :: Occurs(s, q, i) && i > 0 ==> Occurs(s[1..], q, i - 1)
  {
    forall j: nat | Occurs(s[1..], q, j)
      ensures Occurs(s, q, j + 1)
    {
      assert s[1..][j..j + |q|] == s[j + 1..j + 1 + |q|];
    }
    forall i: nat | Occurs(s, q, i) && i > 0
      ensures Occurs(s[1..], q, i - 1)
    {
      assert s[1..][i - 1..i - 1 + |q|] == s[i..i + |q|];
    }
  }

  /** `s.includes(q)`: some position of `s` starts an occurrence of `q`. */
  function Includes(s: string, q: string): (b: bool)
    ensures b <==> exists i: nat :: Occurs(s, q, i)
    decreases |s|
  {
    if |q| > |s| then
      assert forall i: nat :: !Occurs(s, q, i);
      false
    else if s[..|q|] == q then
      assert Occurs(s, q, 0);
      true
    else
      OccursShift(s, q);
      assert !Occurs(s, q, 0);
      Includes(s[1..], q)
  }

  /** Every string includes the empty string and itself. */
  lemma {:induction false} IncludesTrivial(s: string)
    ensures Includes(s, "") && Includes(s, s)
  {
    assert Occurs(s, "", 0);
    assert Occurs(s, s, 0);
  }
}
