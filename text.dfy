/** Display text built by string concatenation. Literal characters are kept as
    they are; a number converted to a string is kept as an atom that records the
    value and which conversion was asked for, because the digits that
    `toFixed`, `toLocaleString` and `String(x)` print are not modelled. */
module Text {
  import opened JsNumber
  import opened Wrappers

  /** How a number is turned into text. */
  datatype Numeral =
    | Fixed(value: Num, digits: nat)   // value.toFixed(digits)
    | Locale(value: Num)               // value.toLocaleString()
    | Shown(value: Num)                // String(value), as in `value + '%'`

  datatype Piece = Ch(c: char) | Number(n: Numeral)

  type Text = seq<Piece>

  /** A string literal as text. */
  function Lit(s: string): (t: Text)
    ensures |t| == |s|
    ensures forall i :: 0 <= i < |s| ==> t[i] == Ch(s[i])
  {
    seq(|s|, i requires 0 <= i < |s| => Ch(s[i]))
  }

  /** A literal holds the character `c` only where the string does. */
  lemma LitFree(s: string, c: char)
    requires c !in s
    ensures Ch(c) !in Lit(s)
  {
  }

  /** A text made of one numeral between two literals, read back into its parts. */
  datatype Reading = Reading(prefix: string, numeral: Numeral, suffix: string)

  /** The characters of an all-literal text. */
  function Chars(t: Text): (r: Option<string>)
    ensures r.Some? ==> Lit(r.value) == t
  {
    if |t| == 0 then Some("")
    else match t[0]
      case Number(_) => None
      case Ch(c) =>
        match Chars(t[1..])
        case None => None
        case Some(s) => Some([c] + s)
  }

  /** Reads a text that holds exactly one numeral. */
  function Read(t: Text): Option<Reading> {
    if |t| == 0 then None
    else match t[0]
      case Number(n) =>
        (match Chars(t[1..])
         case None => None
         case Some(s) => Some(Reading("", n, s)))
      case Ch(c) =>
        match Read(t[1..])
        case None => None
        case Some(rd) => Some(rd.(prefix := [c] + rd.prefix))
  }

  lemma {:induction false} CharsLit(s: string)
    ensures Chars(Lit(s)) == Some(s)
  {
    if |s| > 0 {
      assert Lit(s)[1..] == Lit(s[1..]);
      CharsLit(s[1..]);
      assert [s[0]] + s[1..] == s;
    }
  }

  /** Reading a literal, a numeral and a literal gives back the three parts. */
  lemma {:induction false} ReadLit(p: string, n: Numeral, s: string)
    ensures Read(Lit(p) + [Number(n)] + Lit(s)) == Some(Reading(p, n, s))
  {
    var t := Lit(p) + [Number(n)] + Lit(s);
    if |p| == 0 {
      assert t == [Number(n)] + Lit(s);
      assert t[1..] == Lit(s);
      CharsLit(s);
    } else {
      assert t[1..] == Lit(p[1..]) + [Number(n)] + Lit(s);
      ReadLit(p[1..], n, s);
      assert [p[0]] + p[1..] == p;
    }
  }
}
