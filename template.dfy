/**
 * The naming-pattern renderer (`fillTemplate`): every `${key}` whose key is a value of
 * the record is replaced by that value; all other text is copied. A placeholder whose key
 * is not in the record is kept as written: nothing is claimed about it.
 */
module Template {
  import opened Results
  import opened Strings

  type Values = map<string, string>

  function Fill(pattern: string, values: Values): string
    decreases |pattern|
  {
    if pattern == [] then []
    else if |pattern| >= 2 && pattern[0] == '$' && pattern[1] == '{' then
      match IndexOf(pattern[2..], "}")
      case None => pattern
      case Some(j) =>
        var key := pattern[2..2 + j];
        (if key in values then values[key] else pattern[..3 + j]) + Fill(pattern[3 + j..], values)
    else [pattern[0]] + Fill(pattern[1..], values)
  }

  /** The placeholder for `key`. */
  function Placeholder(key: string): string
  {
    "${" + key + "}"
  }

  predicate NoDollar(s: string) { forall k :: 0 <= k < |s| ==> s[k] != '$' }

  predicate NoBrace(s: string) { forall k :: 0 <= k < |s| ==> s[k] != '}' }

  /** Text without `$` is copied verbatim. */
  lemma {:induction false} FillLiteral(literal: string, rest: string, values: Values)
    requires NoDollar(literal)
    ensures Fill(literal + rest, values) == literal + Fill(rest, values)
    decreases |literal|
  {
    if literal != [] {
      var p := literal + rest;
      assert p[0] == literal[0] && p[1..] == literal[1..] + rest;
      assert p[0] != '$';
      assert Fill(p, values) == [p[0]] + Fill(p[1..], values);
      FillLiteral(literal[1..], rest, values);
      assert literal == [literal[0]] + literal[1..];
    } else {
      assert literal + rest == rest;
    }
  }

  /** A placeholder for a key of the record is replaced by the key's value. */
  lemma {:induction false} FillPlaceholder(key: string, rest: string, values: Values)
    requires NoBrace(key) && key in values
    ensures Fill(Placeholder(key) + rest, values) == values[key] + Fill(rest, values)
  {
    var p := Placeholder(key) + rest;
    var t := key + "}" + rest;
    assert p == "${" + t;
    assert p[2..] == t;
    OccursAtChar(t, '}', |key|);
    forall j: nat | j < |key| ensures !OccursAt(t, "}", j) {
      OccursAtChar(t, '}', j);
      assert t[j] == key[j];
    }
    IndexOfUnique(t, "}", |key|);
    assert p[2..2 + |key|] == key;
    assert p[3 + |key|..] == rest;
  }

  lemma Associative(a: string, b: string, c: string)
    ensures a + b + c == a + (b + c)
  {
  }

  /** Two placeholders around a literal, then any text: the values around the literal, then that text rendered. */
  lemma FillKeyLiteralKey(k1: string, literal: string, k2: string, rest: string, values: Values)
    requires NoBrace(k1) && NoBrace(k2) && NoDollar(literal)
    requires k1 in values && k2 in values
    ensures Fill(Placeholder(k1) + literal + Placeholder(k2) + rest, values)
         == values[k1] + literal + values[k2] + Fill(rest, values)
  {
    var p1, p2 := Placeholder(k1), Placeholder(k2);
    var tail := p2 + rest;
    Associative(p1 + literal, p2, rest);
    Associative(p1, literal, tail);
    FillPlaceholder(k1, literal + tail, values);
    FillLiteral(literal, tail, values);
    FillPlaceholder(k2, rest, values);
    var v1, v2, r := values[k1], values[k2], Fill(rest, values);
    Associative(literal, v2, r);
    Associative(v1, literal + v2, r);
    Associative(v1, literal, v2);
  }

  /** A pattern made of two placeholders around a literal renders as the values around the literal. */
  lemma FillTwoKeys(k1: string, literal: string, k2: string, values: Values)
    requires NoBrace(k1) && NoBrace(k2) && NoDollar(literal)
    requires k1 in values && k2 in values
    ensures Fill(Placeholder(k1) + literal + Placeholder(k2), values) == values[k1] + literal + values[k2]
  {
    var tail := Placeholder(k2);
    assert Placeholder(k1) + literal + tail == Placeholder(k1) + (literal + tail);
    FillPlaceholder(k1, literal + tail, values);
    FillLiteral(literal, tail, values);
    FillPlaceholder(k2, [], values);
    assert tail + [] == tail;
  }
}
