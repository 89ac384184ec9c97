/**
 * The option strings of midieditor.cpp: split, which cuts a string at a
 * delimiter and drops empty and "\r" fields, and the three readers
 * get_2_ints, get_1_int_1_string and get_1_int_1_float, which take the first
 * two fields.  The conversions stoi and stof are parameters that either
 * fail or give a value.
 */
module Options {
  import opened Wrappers
  import opened MidiEvents

  /** A command-line argument, as the bytes of a C++ std::string. */
  type Text = seq<Byte>

  const Comma: Byte := 0x2C
  const CarriageReturn: Byte := 0x0D

  /** The fields split keeps: not empty and not a lone "\r". */
  predicate IsKept(item: Text) {
    item != [] && item != [CarriageReturn]
  }

  function Kept(item: Text): seq<Text> {
    if IsKept(item) then [item] else []
  }

  /** After reading s: the fields kept so far, and the field still being read. */
  function SplitScan(s: Text, delim: Byte): (seq<Text>, Text)
    decreases |s|
  {
    if s == [] then ([], [])
    else
      var (done, item) := SplitScan(s[..|s| - 1], delim);
      if s[|s| - 1] == delim then (done + Kept(item), [])
      else (done, item + [s[|s| - 1]])
  }

  /** split: the fields of s between delimiters, empty and "\r" fields dropped. */
  function Split(s: Text, delim: Byte): seq<Text> {
    var (done, item) := SplitScan(s, delim);
    done + Kept(item)
  }

  /**
   * The getline loop of split, byte by byte: a delimiter ends the current
   * field, which is pushed when kept; the end of the input ends the last one.
   */
  method SplitFields(input: Text, delim: Byte) returns (params: seq<Text>)
    ensures params == Split(input, delim)
  {
    params := [];
    var item: Text := [];
    var i := 0;
    while i < |input|
      invariant 0 <= i <= |input|
      invariant params == SplitScan(input[..i], delim).0
      invariant item == SplitScan(input[..i], delim).1
    {
      assert input[..i + 1][..i] == input[..i] && input[..i + 1][i] == input[i];
      if input[i] == delim {
        if item != [] && item != [CarriageReturn] {
          params := params + [item];
        }
        item := [];
      } else {
        item := item + [input[i]];
      }
      i := i + 1;
    }
    assert input[..i] == input;
    if item != [] && item != [CarriageReturn] {
      params := params + [item];
    }
  }

  /** A field that split can return: kept and free of the delimiter. */
  predicate IsField(f: Text, delim: Byte) {
    IsKept(f) && delim !in f
  }

  lemma {:induction false} SplitScanClean(s: Text, delim: Byte)
    ensures forall k :: 0 <= k < |SplitScan(s, delim).0| ==> IsField(SplitScan(s, delim).0[k], delim)
    ensures delim !in SplitScan(s, delim).1
    decreases |s|
  {
    if s != [] {
      SplitScanClean(s[..|s| - 1], delim);
    }
  }

  /** Every field split returns is non-empty, not "\r" and holds no delimiter. */
  lemma SplitFieldsAreClean(s: Text, delim: Byte)
    ensures forall k :: 0 <= k < |Split(s, delim)| ==> IsField(Split(s, delim)[k], delim)
  {
    SplitScanClean(s, delim);
  }

  lemma {:induction false} ScanWithoutDelimiter(s: Text, delim: Byte)
    requires delim !in s
    ensures SplitScan(s, delim) == ([], s)
    decreases |s|
  {
    if s != [] {
      ScanWithoutDelimiter(s[..|s| - 1], delim);
      assert s[..|s| - 1] + [s[|s| - 1]] == s;
    }
  }

  /** A string without the delimiter gives at most one field, the string itself. */
  lemma SplitWithoutDelimiter(s: Text, delim: Byte)
    requires delim !in s
    ensures Split(s, delim) == Kept(s)
    ensures |Split(s, delim)| <= 1
  {
    ScanWithoutDelimiter(s, delim);
  }

  /** Fields joined with the delimiter between them. */
  function Join(fields: seq<Text>, delim: Byte): Text
    decreases |fields|
  {
    if fields == [] then []
    else if |fields| == 1 then fields[0]
    else Join(fields[..|fields| - 1], delim) + [delim] + fields[|fields| - 1]
  }

  lemma {:induction false} ScanAppend(s: Text, t: Text, delim: Byte)
    requires delim !in t
    ensures SplitScan(s + t, delim) == (SplitScan(s, delim).0, SplitScan(s, delim).1 + t)
    decreases |t|
  {
    if t != [] {
      var m := |t| - 1;
      assert (s + t)[..|s + t| - 1] == s + t[..m];
      ScanAppend(s, t[..m], delim);
      assert SplitScan(s, delim).1 + t[..m] + [t[m]] == SplitScan(s, delim).1 + t;
    } else {
      assert s + t == s;
      assert SplitScan(s, delim).1 + t == SplitScan(s, delim).1;
    }
  }

  lemma {:induction false} ScanOfJoin(fields: seq<Text>, delim: Byte)
    requires fields != []
    requires forall k :: 0 <= k < |fields| ==> IsField(fields[k], delim)
    ensures SplitScan(Join(fields, delim), delim) == (fields[..|fields| - 1], fields[|fields| - 1])
    decreases |fields|
  {
    if |fields| == 1 {
      ScanAppend([], fields[0], delim);
      assert [] + fields[0] == fields[0];
      assert SplitScan([], delim) == ([], []);
      assert [] + fields[0] == fields[0];
    } else {
      var init, last := fields[..|fields| - 1], fields[|fields| - 1];
      ScanOfJoin(init, delim);
      var front := Join(init, delim) + [delim];
      assert front[..|front| - 1] == Join(init, delim);
      assert front[|front| - 1] == delim;
      assert IsKept(init[|init| - 1]);
      assert init[..|init| - 1] + [init[|init| - 1]] == init;
      assert SplitScan(front, delim) == (init, []);
      ScanAppend(front, last, delim);
      assert front + last == Join(fields, delim);
      assert [] + last == last;
    }
  }

  /** split undoes joining fields it could have returned. */
  lemma SplitJoin(fields: seq<Text>, delim: Byte)
    requires forall k :: 0 <= k < |fields| ==> IsField(fields[k], delim)
    ensures Split(Join(fields, delim), delim) == fields
  {
    if fields != [] {
      ScanOfJoin(fields, delim);
      assert fields[..|fields| - 1] + [fields[|fields| - 1]] == fields;
    }
  }

  /**
   * get_2_ints: the first two fields, both converted; false when there are
   * fewer than two fields (params.at throws) or a conversion fails.  Further
   * fields are ignored.
   */
  function Get2Ints(input: Text, toInt: Text -> Option<int>): (r: Option<(int, int)>)
    ensures |Split(input, Comma)| < 2 ==> r.None?
    ensures r.Some? <==> (|Split(input, Comma)| >= 2 &&
      toInt(Split(input, Comma)[0]).Some? && toInt(Split(input, Comma)[1]).Some?)
    ensures r.Some? ==> r.value == (toInt(Split(input, Comma)[0]).value, toInt(Split(input, Comma)[1]).value)
  {
    var params := Split(input, Comma);
    if |params| < 2 then None
    else
      var value1 :- toInt(params[0]);
      var value2 :- toInt(params[1]);
      Some((value1, value2))
  }

  /**
   * get_1_int_1_string: the first field converted, the second taken as it
   * is; so the name is never empty, never "\r" and never holds a comma.
   */
  function Get1Int1String(input: Text, toInt: Text -> Option<int>): (r: Option<(int, Text)>)
    ensures r.Some? <==> |Split(input, Comma)| >= 2 && toInt(Split(input, Comma)[0]).Some?
    ensures r.Some? ==> r.value == (toInt(Split(input, Comma)[0]).value, Split(input, Comma)[1])
    ensures r.Some? ==> IsField(r.value.1, Comma)
  {
    var params := Split(input, Comma);
    SplitFieldsAreClean(input, Comma);
    if |params| < 2 then None
    else
      var value1 :- toInt(params[0]);
      Some((value1, params[1]))
  }

  /** get_1_int_1_float: the first field converted by stoi, the second by stof. */
  function Get1Int1Float(input: Text, toInt: Text -> Option<int>, toFloat: Text -> Option<real>): (r: Option<(int, real)>)
    ensures r.Some? <==> (|Split(input, Comma)| >= 2 &&
      toInt(Split(input, Comma)[0]).Some? && toFloat(Split(input, Comma)[1]).Some?)
    ensures r.Some? ==> r.value == (toInt(Split(input, Comma)[0]).value, toFloat(Split(input, Comma)[1]).value)
  {
    var params := Split(input, Comma);
    if |params| < 2 then None
    else
      var value1 :- toInt(params[0]);
      var value2 :- toFloat(params[1]);
      Some((value1, value2))
  }

  /** An option without a comma can never give two values. */
  lemma NoCommaNoPair(input: Text, toInt: Text -> Option<int>, toFloat: Text -> Option<real>)
    requires Comma !in input
    ensures Get2Ints(input, toInt).None?
    ensures Get1Int1String(input, toInt).None?
    ensures Get1Int1Float(input, toInt, toFloat).None?
  {
    SplitWithoutDelimiter(input, Comma);
  }
}
