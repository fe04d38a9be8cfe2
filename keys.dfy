/**
 * The two composite identities of the engine: the primary key of a
 * fault or recovery (`key_h`) and the signature of a candidate alarm
 * (`key2`), whose parts have every `.` escaped.
 */
module Keys {

  /** The six characters `\u002e`: in the raw string `r'\u002e'` the backslash is literal. */
  const EscapedDot: string := "\\u002e"

  /**
   * `f"{ne}**{mo}**{alarm}"`, with `_rec` appended for a Recovery. Its parts
   * are not escaped: without dots, a Fault's key is the signature of the
   * same three names.
   */
  function PrimaryKey(ne: string, mo: string, alarm: string, recovery: bool): (k: string)
    ensures '.' !in ne && '.' !in mo && '.' !in alarm ==>
      k == Signature(ne, mo, alarm) + (if recovery then "_rec" else "")
  {
    ne + "**" + mo + "**" + alarm + (if recovery then "_rec" else "")
  }

  /** The Recovery key is the Fault key of the same triple with `_rec` appended, so the two always differ. */
  lemma RecoveryKeyExtendsFaultKey(ne: string, mo: string, alarm: string)
    ensures PrimaryKey(ne, mo, alarm, true) == PrimaryKey(ne, mo, alarm, false) + "_rec"
    ensures PrimaryKey(ne, mo, alarm, true) != PrimaryKey(ne, mo, alarm, false)
  {
    assert |PrimaryKey(ne, mo, alarm, true)| == |PrimaryKey(ne, mo, alarm, false)| + 4;
  }

  /**
   * Keys of different triples can coincide: a Fault whose alarm name ends in
   * `_rec` shares its key with the Recovery of the shorter name.
   */
  lemma FaultAndRecoveryKeysCanCoincide()
    ensures PrimaryKey("NE", "MO", "A_rec", false) == PrimaryKey("NE", "MO", "A", true)
  {
  }

  /** `s.replace('.', r'\u002e')`: no dot survives, and text without a dot is left alone. */
  function Escape(s: string): (r: string)
    ensures '.' !in r
    ensures '.' !in s ==> r == s
  {
    if s == [] then []
    else (if s[0] == '.' then EscapedDot else [s[0]]) + Escape(s[1..])
  }

  /** Each escaped dot grows the text by five characters. */
  lemma {:induction false} EscapeLength(s: string)
    ensures |Escape(s)| == |s| + 5 * multiset(s)['.']
  {
    if s != [] {
      assert s == [s[0]] + s[1..];
      assert multiset(s) == multiset([s[0]]) + multiset(s[1..]);
      EscapeLength(s[1..]);
    }
  }

  /** The candidate signature `esc(node)**esc(obj)**esc(alarm)`. */
  function Signature(node: string, obj: string, alarm: string): (r: string)
    ensures '.' !in r
  {
    var n, o, a := Escape(node), Escape(obj), Escape(alarm);
    NoDotInJoin(n, o);
    NoDotInJoin(n + "**" + o, a);
    n + "**" + o + "**" + a
  }

  lemma NoDotInJoin(a: string, b: string)
    requires '.' !in a && '.' !in b
    ensures '.' !in a + "**" + b
  {
    assert '.' !in "**";
  }

  /** Without dots in its parts, the signature is the plain `node**obj**alarm`. */
  lemma SignatureOfPlainParts(node: string, obj: string, alarm: string)
    requires '.' !in node && '.' !in obj && '.' !in alarm
    ensures Signature(node, obj, alarm) == node + "**" + obj + "**" + alarm
  {
  }
}
