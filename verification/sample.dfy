/**
  The demo value type `S` (an id and a name) and its text format
  `S[ #<id> <name> ]`. `Parse` reads a rendering back; the lemmas show that
  rendering is lossless, so two different values never render alike.
 */
module Sample {
  import opened Wrappers
  import Decimal

  datatype S = S(id: int, name: string)

  /** `S::toString`: "S[ #", the decimal id, one space, the name, " ]". */
  function ToString(s: S): string {
    "S[ #" + Decimal.IntToText(s.id) + " " + s.name + " ]"
  }

  /** Position of the first space in `t`, or `|t|` when there is none. */
  function SpaceIndex(t: string): (k: nat)
    ensures k <= |t|
    ensures k < |t| ==> t[k] == ' '
    ensures forall j :: 0 <= j < k ==> t[j] != ' '
  {
    if t == [] || t[0] == ' ' then 0 else 1 + SpaceIndex(t[1..])
  }

  /**
    Inverse of `ToString`: strips the frame "S[ #" … " ]", reads the id up to
    the first space (a rendered id never contains one) and keeps the rest,
    spaces included, as the name.
   */
  function Parse(t: string): Option<S> {
    if |t| < 6 || t[..4] != "S[ #" || t[|t| - 2..] != " ]" then None
    else
      var body := t[4..|t| - 2];
      var k := SpaceIndex(body);
      if k == |body| then None
      else
        match Decimal.ParseInt(body[..k])
        case None => None
        case Some(i) => Some(S(i, body[k + 1..]))
  }

  lemma ParseToString(s: S)
    ensures Parse(ToString(s)) == Some(s)
  {
    var d := Decimal.IntToText(s.id);
    var t := ToString(s);
    var body := d + " " + s.name;
    assert t == "S[ #" + body + " ]";
    assert t[..4] == "S[ #" && t[|t| - 2..] == " ]";
    assert t[4..|t| - 2] == body;
    var k := SpaceIndex(body);
    assert body[|d|] == ' ';
    assert forall j :: 0 <= j < |d| ==> body[j] == d[j];
    assert k == |d|;
    assert body[..k] == d && body[k + 1..] == s.name;
    Decimal.IntTextRoundTrip(s.id);
  }

  lemma ToStringOfParse(t: string, s: S)
    requires Parse(t) == Some(s)
    ensures ToString(s) == t
  {
    var body := t[4..|t| - 2];
    var k := SpaceIndex(body);
    Decimal.TextIntRoundTrip(body[..k], s.id);
    assert body == body[..k] + " " + body[k + 1..];
    assert t == t[..4] + body + t[|t| - 2..];
  }

  lemma ToStringInjective(a: S, b: S)
    requires ToString(a) == ToString(b)
    ensures a == b
  {
    ParseToString(a);
    ParseToString(b);
  }
}
