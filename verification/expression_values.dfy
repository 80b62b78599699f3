/** The pieces shared by the DynamoDB filter builders: the attribute values
  * bound to placeholders, the caller's placeholder map that the builders
  * fill in place, and the numbered placeholder names (`:type0`, `:group1`,
  * ...). */
module ExpressionValues {
  import opened Dates
  import MandateUtils

  /** An `AttributeValue`: a string, a number (as its decimal text) or a
    * boolean. */
  datatype AttributeValue = S(s: string) | N(n: string) | Bool(b: bool)

  /** The `Map<String, AttributeValue>` a query builder passes to the filter
    * builders, which add their bindings to it. */
  class AttributeMap {
    var values: map<string, AttributeValue>

    constructor ()
      ensures values == map[]
    {
      values := map[];
    }

    /** `put`: binds (or rebinds) one placeholder. */
    method Put(key: string, value: AttributeValue)
      modifies this
      ensures values == old(values)[key := value]
    {
      values := values[key := value];
    }
  }

  /** The `StringBuilder` a filter builder appends to. */
  class StringBuilder {
    var text: string

    constructor ()
      ensures text == ""
    {
      text := "";
    }

    method Append(s: string)
      modifies this
      ensures text == old(text) + s
    {
      text := text + s;
    }
  }

  /** `Integer.toString` of a natural number: its decimal digits, without
    * leading zeros. */
  function NatToString(n: nat): (s: string)
    ensures s != [] && forall i :: 0 <= i < |s| ==> IsAsciiDigit(s[i])
  {
    if n < 10 then [DigitChar(n)] else NatToString(n / 10) + [DigitChar(n % 10)]
  }

  lemma {:induction false} NatToStringValue(n: nat)
    ensures MandateUtils.DecimalValue(NatToString(n)) == n
  {
    var s := NatToString(n);
    if n < 10 {
      assert s[..0] == [];
    } else {
      assert s[..|s| - 1] == NatToString(n / 10);
      NatToStringValue(n / 10);
    }
  }

  /** The placeholder `prefix + i`. */
  function Placeholder(prefix: string, i: nat): (p: string)
    ensures |p| > |prefix| && p[..|prefix|] == prefix
  {
    prefix + NatToString(i)
  }

  /** Placeholders with the same prefix and different numbers differ. */
  lemma PlaceholderInjective(prefix: string, i: nat, j: nat)
    requires Placeholder(prefix, i) == Placeholder(prefix, j)
    ensures i == j
  {
    assert NatToString(i) == Placeholder(prefix, i)[|prefix|..];
    assert NatToString(j) == Placeholder(prefix, j)[|prefix|..];
    NatToStringValue(i);
    NatToStringValue(j);
  }

  /** The bindings `prefix + k := S(names[k])` for every position `k`. */
  function Bindings(prefix: string, names: seq<string>): (m: map<string, AttributeValue>)
  {
    if names == [] then map[]
    else Bindings(prefix, names[..|names| - 1])[Placeholder(prefix, |names| - 1) := S(names[|names| - 1])]
  }

  /** Each name is bound to its own numbered placeholder, and nothing else
    * is bound. */
  lemma {:induction false} BindingsShape(prefix: string, names: seq<string>)
    ensures forall k :: 0 <= k < |names| ==> Placeholder(prefix, k) in Bindings(prefix, names)
    ensures forall k :: 0 <= k < |names| ==> Bindings(prefix, names)[Placeholder(prefix, k)] == S(names[k])
    ensures forall key :: key in Bindings(prefix, names) ==> exists k :: 0 <= k < |names| && key == Placeholder(prefix, k)
  {
    if names != [] {
      var n := |names| - 1;
      BindingsShape(prefix, names[..n]);
      forall k | 0 <= k < n
        ensures Bindings(prefix, names)[Placeholder(prefix, k)] == S(names[k])
      {
        if Placeholder(prefix, k) == Placeholder(prefix, n) {
          PlaceholderInjective(prefix, k, n);
        }
      }
    }
  }

  /** The placeholders never collide: there are as many bindings as names. */
  lemma {:induction false} BindingsCount(prefix: string, names: seq<string>)
    ensures |Bindings(prefix, names).Keys| == |names|
  {
    if names != [] {
      var n := |names| - 1;
      var prior := Bindings(prefix, names[..n]);
      BindingsCount(prefix, names[..n]);
      BindingsShape(prefix, names[..n]);
      if Placeholder(prefix, n) in prior {
        var k :| 0 <= k < n && Placeholder(prefix, n) == Placeholder(prefix, k);
        PlaceholderInjective(prefix, n, k);
      }
      assert Bindings(prefix, names).Keys == prior.Keys + {Placeholder(prefix, n)};
    }
  }

  /** Binding one more name extends the bindings of the shorter prefix by
    * one placeholder; on the caller's map this is one `put`. */
  lemma BindingsStep(prefix: string, names: seq<string>, i: nat, start: map<string, AttributeValue>)
    requires i < |names|
    ensures (start + Bindings(prefix, names[..i]))[Placeholder(prefix, i) := S(names[i])]
      == start + Bindings(prefix, names[..i + 1])
  {
    assert names[..i + 1][..i] == names[..i];
  }
}
