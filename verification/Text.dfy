/** String operations of the host language that several parts rely on. */
module Text {
  /** What `String.prototype.trim` strips. */
  predicate IsWhitespace(c: char) {
    var n := c as int;
    9 <= n <= 13 || n == 0x20 || n == 0xA0 || n == 0x1680 || 0x2000 <= n <= 0x200A || n == 0x2028 || n == 0x2029 ||
    n == 0x202F || n == 0x205F || n == 0x3000 || n == 0xFEFF
  }

  predicate IsTrimmed(s: string) {
    s == "" || (!IsWhitespace(s[0]) && !IsWhitespace(s[|s| - 1]))
  }

  function Trim(s: string): (r: string)
    ensures IsTrimmed(r)
    ensures IsTrimmed(s) ==> r == s
    decreases |s|
  {
    if s == "" then s
    else if IsWhitespace(s[0]) then Trim(s[1..])
    else if IsWhitespace(s[|s| - 1]) then Trim(s[..|s| - 1])
    else s
  }

  predicate AllWhitespace(s: string) {
    forall c <- s :: IsWhitespace(c)
  }

  /** Trimming takes whitespace off both ends and nothing else. */
  lemma {:induction false} TrimTakesWhitespace(s: string) returns (front: string, back: string)
    ensures s == front + Trim(s) + back && AllWhitespace(front) && AllWhitespace(back)
    decreases |s|
  {
    front, back := "", "";
    if s != "" && IsWhitespace(s[0]) {
      front, back := TrimTakesWhitespace(s[1..]);
      front := [s[0]] + front;
    } else if s != "" && IsWhitespace(s[|s| - 1]) {
      front, back := TrimTakesWhitespace(s[..|s| - 1]);
      back := back + [s[|s| - 1]];
    }
  }
}
