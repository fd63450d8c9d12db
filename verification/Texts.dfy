/** Texts as JavaScript holds them, sequences of UTF-16 code units, and how it trims them. */
module Texts {

  type Unit = u: int | 0 <= u < 0x1_0000
  type Text = seq<Unit>

  predicate IsSpace(u: Unit) {
    || 0x9 <= u <= 0xD || u == 0x20 || u == 0xA0 || u == 0x1680 || 0x2000 <= u <= 0x200A
    || u == 0x2028 || u == 0x2029 || u == 0x202F || u == 0x205F || u == 0x3000 || u == 0xFEFF
  }

  predicate Trimmed(s: Text) {
    s != [] ==> !IsSpace(s[0]) && !IsSpace(s[|s| - 1])
  }

  function TrimStart(s: Text): (t: Text)
    ensures |t| <= |s|
    ensures t != [] ==> !IsSpace(t[0]) && t[|t| - 1] == s[|s| - 1]
  {
    if s == [] || !IsSpace(s[0]) then s else TrimStart(s[1..])
  }

  function TrimEnd(s: Text): (t: Text)
    ensures |t| <= |s| && t == s[..|t|] && (t != [] ==> !IsSpace(t[|t| - 1]))
  {
    if s == [] || !IsSpace(s[|s| - 1]) then s else TrimEnd(s[..|s| - 1])
  }

  function Trim(s: Text): (t: Text)
    ensures Trimmed(t) && |t| <= |s|
  {
    TrimEnd(TrimStart(s))
  }

  /** Trimming changes exactly the texts that begin or end with a space. */
  lemma TrimIsIdentity(s: Text)
    ensures Trim(s) == s <==> Trimmed(s)
  {
  }

  lemma {:induction false} TrimAddsNothing(u: Unit, s: Text)
    requires u !in s
    ensures u !in Trim(s)
  {
    StartAddsNothing(u, s);
    var t := TrimStart(s);
    assert forall v :: v in t[..|Trim(s)|] ==> v in t;
  }

  lemma {:induction false} StartAddsNothing(u: Unit, s: Text)
    requires u !in s
    ensures u !in TrimStart(s)
    decreases |s|
  {
    if s != [] && IsSpace(s[0]) {
      StartAddsNothing(u, s[1..]);
    }
  }
}
