/**
 * The Python string operations the scripts rely on: `str.strip("'")`, and
 * splitting a printed comma-separated line back into its fields (used to
 * state what the printed lines contain).
 */
module PyStr {

  /** `n` single quotes. */
  function Quotes(n: nat): string
  {
    if n == 0 then [] else Quotes(n - 1) + "'"
  }

  /** Drops every leading single quote: the input is some quotes followed by the result. */
  function StripLeading(s: string): (r: string)
    ensures |r| <= |s| && s == Quotes(|s| - |r|) + r
    ensures r == [] || r[0] != '\''
    decreases |s|
  {
    if |s| > 0 && s[0] == '\'' then
      var r := StripLeading(s[1..]);
      QuotesCons(|s| - 1 - |r|);
      assert s == [s[0]] + s[1..];
      r
    else
      s
  }

  /** Drops every trailing single quote: the input is the result followed by some quotes. */
  function StripTrailing(s: string): (r: string)
    ensures |r| <= |s| && s == r + Quotes(|s| - |r|)
    ensures r == [] || r[|r| - 1] != '\''
    decreases |s|
  {
    if |s| > 0 && s[|s| - 1] == '\'' then
      var r := StripTrailing(s[..|s| - 1]);
      assert s == s[..|s| - 1] + [s[|s| - 1]];
      r
    else
      s
  }

  /** A quote in front of n quotes is n + 1 quotes. */
  lemma {:induction false} QuotesCons(n: nat)
    ensures "'" + Quotes(n) == Quotes(n + 1)
  {
    if n > 0 {
      QuotesCons(n - 1);
    }
  }

  /** Python's `s.strip("'")`: both ends lose all their single quotes. */
  function StripQuotes(s: string): (r: string)
    ensures |r| <= |s|
    ensures r == [] || (r[0] != '\'' && r[|r| - 1] != '\'')
    ensures exists a: nat, b: nat :: s == Quotes(a) + r + Quotes(b)
  {
    var t := StripLeading(s);
    var r := StripTrailing(t);
    assert s == Quotes(|s| - |t|) + r + Quotes(|t| - |r|);
    assert r != [] ==> r[0] == t[0];
    r
  }

  /** A string that neither starts nor ends with a single quote. */
  predicate Unquoted(t: string)
  {
    t == [] || (t[0] != '\'' && t[|t| - 1] != '\'')
  }

  /** Stripping the quotes of a quoted unquoted string gives that string back. */
  lemma {:induction false} StripQuotesOfQuoted(t: string)
    requires Unquoted(t)
    ensures StripQuotes("'" + t + "'") == t
  {
    var q := "'" + t + "'";
    assert q[0] == '\'' && q[1..] == t + "'";
    if t == [] {
      assert q[1..][1..] == [];
      assert StripLeading(q) == [];
    } else {
      assert StripLeading(t + "'") == t + "'";
      assert StripLeading(q) == t + "'";
      assert (t + "'")[..|t|] == t;
      assert StripTrailing(t + "'") == StripTrailing(t);
    }
  }

  /** Stripping twice strips nothing more. */
  lemma {:induction false} StripQuotesIdempotent(s: string)
    ensures StripQuotes(StripQuotes(s)) == StripQuotes(s)
  {
    var r := StripQuotes(s);
    assert StripLeading(r) == r;
    assert StripTrailing(r) == r;
  }

  /** Splits a line at every comma, as a reader of the printed lines would. */
  function Split(s: string): (r: seq<string>)
    ensures |r| >= 1
    decreases |s|
  {
    if s == [] then [""]
    else
      var rest := Split(s[1..]);
      if s[0] == ',' then [""] + rest else [[s[0]] + rest[0]] + rest[1..]
  }

  /** A comma-free string is one field. */
  lemma {:induction false} SplitField(a: string)
    requires ',' !in a
    ensures Split(a) == [a]
    decreases |a|
  {
    if a != [] {
      assert ',' !in a[1..] by {
        forall k | 0 <= k < |a[1..]| ensures a[1..][k] != ',' { assert a[1..][k] == a[k + 1]; }
      }
      SplitField(a[1..]);
      assert [a[0]] + a[1..] == a;
    }
  }

  /** A comma-free field followed by a comma splits off as the first field. */
  lemma {:induction false} SplitFirstField(a: string, b: string)
    requires ',' !in a
    ensures Split(a + "," + b) == [a] + Split(b)
    decreases |a|
  {
    var s := a + "," + b;
    if a == [] {
      assert s[0] == ',' && s[1..] == b;
    } else {
      assert ',' !in a[1..] by {
        forall k | 0 <= k < |a[1..]| ensures a[1..][k] != ',' { assert a[1..][k] == a[k + 1]; }
      }
      assert s[0] == a[0] && a[0] != ',';
      assert s[1..] == a[1..] + "," + b;
      SplitFirstField(a[1..], b);
      assert [a[0]] + a[1..] == a;
    }
  }

  /** The fields joined with commas, as a printed line is built. */
  function Join(fields: seq<string>): string
    requires |fields| >= 1
  {
    if |fields| == 1 then fields[0] else fields[0] + "," + Join(fields[1..])
  }

  /** Splitting a line of comma-free fields gives the fields back. */
  lemma {:induction false} SplitJoin(fields: seq<string>)
    requires |fields| >= 1
    requires forall k :: 0 <= k < |fields| ==> ',' !in fields[k]
    ensures Split(Join(fields)) == fields
    decreases |fields|
  {
    if |fields| == 1 {
      SplitField(fields[0]);
    } else {
      SplitJoin(fields[1..]);
      SplitFirstField(fields[0], Join(fields[1..]));
    }
  }
}
