/** Splitting a configured value string such as "1.5 ether" into its amount
    and unit, as `transaction["value"].split(" ")` followed by
    `tx_value[0]`, `tx_value[1]` does (src/mint_bot.py:75,79). */
module ValueString {
  import opened MintTypes

  const Space: char := ' '

  /** Python's `s.split(sep)` for a one-character separator: cuts at every
      occurrence, keeps empty pieces, and always returns at least one piece. */
  function Split(s: string, sep: char): (parts: seq<string>)
    ensures |parts| >= 1
    ensures forall i :: 0 <= i < |parts| ==> sep !in parts[i]
    decreases |s|
  {
    if |s| == 0 then [""]
    else
      var rest := Split(s[1..], sep);
      if s[0] == sep then [""] + rest
      else [[s[0]] + rest[0]] + rest[1..]
  }

  /** Python's `sep.join(parts)`: the reference Split is checked against. */
  function Join(parts: seq<string>, sep: char): string
    requires |parts| >= 1
    decreases |parts|
  {
    if |parts| == 1 then parts[0] else parts[0] + [sep] + Join(parts[1..], sep)
  }

  /** Joining the pieces of a split gives back the original string. */
  lemma {:induction false} JoinSplit(s: string, sep: char)
    ensures Join(Split(s, sep), sep) == s
    decreases |s|
  {
    if |s| > 0 {
      var rest := Split(s[1..], sep);
      JoinSplit(s[1..], sep);
      if s[0] == sep {
        assert Split(s, sep) == [""] + rest;
        assert ([""] + rest)[1..] == rest;
        assert s == [sep] + s[1..];
      } else {
        var parts := [[s[0]] + rest[0]] + rest[1..];
        assert Split(s, sep) == parts;
        if |rest| == 1 {
          assert s == [s[0]] + rest[0];
        } else {
          assert parts[1..] == rest[1..];
          assert Join(rest, sep) == rest[0] + [sep] + Join(rest[1..], sep);
          assert s == [s[0]] + s[1..];
        }
      }
    }
  }

  /** Splitting a string with a separator-free first block `p` in front of `t`
      glues `p` onto the first piece of `t`. */
  lemma {:induction false} SplitPrefix(p: string, t: string, sep: char)
    requires sep !in p
    ensures Split(p + t, sep) == [p + Split(t, sep)[0]] + Split(t, sep)[1..]
    decreases |p|
  {
    if |p| > 0 {
      SplitPrefix(p[1..], t, sep);
      assert (p + t)[1..] == p[1..] + t;
      assert p[0] in p;
      assert [p[0]] + (p[1..] + Split(t, sep)[0]) == p + Split(t, sep)[0];
    } else {
      var parts := Split(t, sep);
      assert p + t == t && p + parts[0] == parts[0];
      assert parts == [parts[0]] + parts[1..];
    }
  }

  /** Splitting a join of separator-free pieces gives back the pieces. */
  lemma {:induction false} SplitJoin(parts: seq<string>, sep: char)
    requires |parts| >= 1
    requires forall i :: 0 <= i < |parts| ==> sep !in parts[i]
    ensures Split(Join(parts, sep), sep) == parts
    decreases |parts|
  {
    if |parts| == 1 {
      SplitPrefix(parts[0], "", sep);
      assert parts[0] + "" == parts[0];
    } else {
      var tail := Join(parts[1..], sep);
      SplitJoin(parts[1..], sep);
      assert parts[0] + [sep] + tail == parts[0] + ([sep] + tail);
      SplitPrefix(parts[0], [sep] + tail, sep);
      assert ([sep] + tail)[1..] == tail;
      assert Split([sep] + tail, sep) == [""] + parts[1..];
      assert parts[0] + "" == parts[0];
    }
  }

  /** The string has a second piece exactly when it holds the separator. */
  lemma {:induction false} SplitHasSecondPiece(s: string, sep: char)
    ensures |Split(s, sep)| >= 2 <==> sep in s
  {
    var parts := Split(s, sep);
    JoinSplit(s, sep);
    if |parts| >= 2 {
      assert s == parts[0] + [sep] + Join(parts[1..], sep);
      assert s[|parts[0]|] == sep;
    } else {
      assert s == parts[0];
    }
  }

  /** The two tokens the bot reads from a value string. */
  datatype ValueParts = ValueParts(amount: string, unit: string)

  /** `tx_value = value.split(" ")`, then `tx_value[0]` and `tx_value[1]`;
      any further tokens are never looked at. */
  function ParseValue(value: string): (r: Result<ValueParts>)
    ensures r.Success? <==> Space in value
    ensures r.Failure? ==> r.error == MissingUnit
    ensures r.Success? ==> Space !in r.value.amount && Space !in r.value.unit
  {
    SplitHasSecondPiece(value, Space);
    var tokens := Split(value, Space);
    if |tokens| < 2 then Failure(MissingUnit) else Success(ValueParts(tokens[0], tokens[1]))
  }

  /** ParseValue succeeds exactly when the string holds a space; the amount is
      then everything before the first space and the unit everything between
      the first space and the next one (or the end of the string). */
  lemma {:induction false} ParseValueCharacterized(value: string)
    ensures ParseValue(value).Success? <==> Space in value
    ensures ParseValue(value).Success? ==>
      var a, u := ParseValue(value).value.amount, ParseValue(value).value.unit;
      var n := |a| + 1 + |u|;
      n <= |value| && value[..n] == a + [Space] + u &&
      (n == |value| || value[n] == Space)
  {
    var tokens := Split(value, Space);
    SplitHasSecondPiece(value, Space);
    if |tokens| >= 2 {
      JoinSplit(value, Space);
      var a, u := tokens[0], tokens[1];
      var rest := Join(tokens[1..], Space);
      assert value == a + [Space] + rest;
      if |tokens| == 2 {
        assert rest == u;
      } else {
        assert tokens[1..][1..] == tokens[2..];
        assert rest == u + [Space] + Join(tokens[2..], Space);
      }
      var n := |a| + 1 + |u|;
      assert value[..n] == a + [Space] + u;
    }
  }

  /** "1.5 ether" gives amount "1.5" and unit "ether"; "1.5" has no unit. */
  lemma ParseValueExamples()
    ensures ParseValue("1.5 ether") == Success(ValueParts("1.5", "ether"))
    ensures ParseValue("1.5") == Failure(MissingUnit)
    ensures ParseValue("2 gwei extra") == Success(ValueParts("2", "gwei"))
  {
    SplitJoin(["1.5", "ether"], Space);
    assert Join(["1.5", "ether"], Space) == "1.5 ether";
    SplitHasSecondPiece("1.5", Space);
    SplitJoin(["2", "gwei", "extra"], Space);
    assert ["2", "gwei", "extra"][1..] == ["gwei", "extra"];
    assert Join(["2", "gwei", "extra"], Space) == "2 gwei extra";
  }
}
