/**
 * The column handling of GFF3AnnotationParser, shared by both of its
 * parseAnnotation drivers: the start/end pair put in order, the strand of
 * column 7, and column 9 read as a multimap of attributes, in either GFF3
 * form (key=value) or GTF form (key "value").
 */
module GffColumns {
  import opened Results
  import opened Locations
  import opened JavaText

  /** The start and end columns as parsed, swapped when the end comes first. */
  function Ordered(start: int, end: int): (r: (int, int))
    ensures r.0 <= r.1
    ensures (r.0 == start && r.1 == end) || (r.0 == end && r.1 == start)
  {
    if end < start then (end, start) else (start, end)
  }

  /** Column 7 ("+" or "-") when the line has it; any other value, or no such column, is unknown. */
  function ColumnStrand(sections: seq<string>): (s: Strand)
    ensures s == Forward <==> |sections| >= 7 && sections[6] == "+"
    ensures s == Reverse <==> |sections| >= 7 && sections[6] == "-"
  {
    if |sections| >= 7 then
      if sections[6] == "+" then Forward
      else if sections[6] == "-" then Reverse
      else Unknown
    else Unknown
  }

  /** How a GFF file writes a strand in column 7. */
  function StrandSymbol(s: Strand): string
  {
    match s
    case Forward => "+"
    case Reverse => "-"
    case Unknown => "."
  }

  /** Decoding column 7 gives back the strand written there. */
  lemma StrandRoundTrip(sections: seq<string>, s: Strand)
    requires |sections| >= 7 && sections[6] == StrandSymbol(s)
    ensures ColumnStrand(sections) == s
  {
  }

  /**
   * One attribute token as a key and a value: split at the first '=', or,
   * when there is none, at " \"" with the closing quote cut off the value.
   * A token that splits neither way has no key.
   */
  function KeyValue(token: string): Option<(string, string)>
  {
    var kv := SplitOnce(token, '=');
    if |kv| == 2 then Some((kv[0], kv[1]))
    else
      var q := Split(token, SpaceQuote);
      SplitLastNotEmpty(token, SpaceQuote);
      if |q| == 2 then Some((q[0], q[1][..|q[1]| - 1])) else None
  }

  /** A GFF3 token key=value gives back its key and value, whatever the value holds. */
  lemma KeyValueGff3(key: string, value: string)
    requires '=' !in key
    ensures KeyValue(key + "=" + value) == Some((key, value))
  {
    var s := key + "=" + value;
    assert s[|key|] == '=';
    var kv := SplitOnce(s, '=');
    assert s == kv[0] + ['='] + kv[1];
    assert |kv[0]| == |key|;
    assert kv[0] == s[..|key|] == key;
    assert kv[1] == s[|key| + 1..] == value;
  }

  /**
   * A GTF token key "value" gives back its key and value, when neither holds
   * a quote or an '=' and the value does not end in a space.
   */
  lemma KeyValueGtf(key: string, value: string)
    requires '=' !in key && '=' !in value && '"' !in key && '"' !in value
    requires value == [] || value[|value| - 1] != ' '
    ensures KeyValue(key + " \"" + value + "\"") == Some((key, value))
  {
    var s := key + " \"" + value + "\"";
    var n := |key|;
    assert '=' !in s by {
      forall k | 0 <= k < |s| ensures s[k] != '=' {
        if k < n { assert s[k] == key[k]; }
        else if n + 2 <= k < |s| - 1 { assert s[k] == value[k - n - 2]; }
      }
    }
    forall k | 0 <= k < n
      ensures MatchLength(s, k, SpaceQuote) == 0
    {
      if k + 1 < n { assert s[k + 1] == key[k + 1]; } else { assert s[k + 1] == ' '; }
    }
    PiecesSkip(s, SpaceQuote, 0, n, 0);
    assert MatchLength(s, n, SpaceQuote) == 2;
    forall k | n + 2 <= k < |s|
      ensures MatchLength(s, k, SpaceQuote) == 0
    {
      if k + 1 < |s| - 1 {
        assert s[k + 1] == value[k + 1 - n - 2];
      } else if k + 1 == |s| - 1 {
        assert s[k] == value[|value| - 1];
      }
    }
    PiecesNoMatch(s, SpaceQuote, n + 2, n + 2);
    assert s[..n] == key;
    assert s[n + 2..] == value + "\"";
    assert Pieces(s, SpaceQuote, 0, 0) == [key, value + "\""];
    assert (value + "\"")[..|value|] == value;
  }

  /** Column 9 cut into attribute tokens at ';' and the spaces around it. */
  function AttributeTokens(column: string): seq<string>
  {
    Split(column, SpacedSemicolon)
  }

  /**
   * The multimap keyValuePairs: every key with its values in the order the
   * tokens give them; tokens without a key are passed over.
   */
  function Attributes(tokens: seq<string>): (m: map<string, seq<string>>)
    ensures forall k :: k in m ==> m[k] != []
  {
    if tokens == [] then map[]
    else
      var m := Attributes(tokens[..|tokens| - 1]);
      match KeyValue(tokens[|tokens| - 1])
      case None => m
      case Some(kv) => if kv.0 in m then m[kv.0 := m[kv.0] + [kv.1]] else m[kv.0 := [kv.1]]
  }

  /** The tokens without a key, in order: each one is a "No key value delimiter" warning on the genome path. */
  function Undelimited(tokens: seq<string>): (u: seq<string>)
    ensures forall k :: 0 <= k < |u| ==> u[k] in tokens && KeyValue(u[k]).None?
    ensures forall k :: 0 <= k < |tokens| && KeyValue(tokens[k]).None? ==> tokens[k] in u
  {
    if tokens == [] then []
    else if KeyValue(tokens[|tokens| - 1]).None? then Undelimited(tokens[..|tokens| - 1]) + [tokens[|tokens| - 1]]
    else Undelimited(tokens[..|tokens| - 1])
  }

  /** The warnings of two runs of tokens are those of the first run, then those of the second, each in column order. */
  lemma {:induction false} UndelimitedAppend(a: seq<string>, b: seq<string>)
    ensures Undelimited(a + b) == Undelimited(a) + Undelimited(b)
    decreases |b|
  {
    if b == [] {
      assert a + b == a;
    } else {
      var init := b[..|b| - 1];
      UndelimitedAppend(a, init);
      assert (a + b)[..|a + b| - 1] == a + init;
    }
  }

  /** The values the tokens give to key, front to back. */
  function ValuesOf(tokens: seq<string>, key: string): seq<string>
  {
    if tokens == [] then []
    else
      match KeyValue(tokens[0])
      case Some(kv) => if kv.0 == key then [kv.1] + ValuesOf(tokens[1..], key) else ValuesOf(tokens[1..], key)
      case None => ValuesOf(tokens[1..], key)
  }

  lemma {:induction false} ValuesOfAppend(tokens: seq<string>, t: string, key: string)
    ensures ValuesOf(tokens + [t], key) ==
      if KeyValue(t).Some? && KeyValue(t).value.0 == key then ValuesOf(tokens, key) + [KeyValue(t).value.1]
      else ValuesOf(tokens, key)
  {
    if tokens != [] {
      assert (tokens + [t])[1..] == tokens[1..] + [t];
      ValuesOfAppend(tokens[1..], t, key);
    }
  }

  /**
   * A key is in the multimap exactly when some token gives it a value, and
   * its list is every such value in the order of the tokens: repeated keys
   * accumulate instead of overwriting.
   */
  lemma {:induction false} AttributesCollect(tokens: seq<string>, key: string)
    ensures key in Attributes(tokens) <==> ValuesOf(tokens, key) != []
    ensures key in Attributes(tokens) ==> Attributes(tokens)[key] == ValuesOf(tokens, key)
  {
    if tokens != [] {
      var front, t := tokens[..|tokens| - 1], tokens[|tokens| - 1];
      AttributesCollect(front, key);
      assert tokens == front + [t];
      ValuesOfAppend(front, t, key);
    }
  }

  /** The token loop of both drivers, building keyValuePairs and collecting the tokens it cannot split. */
  method ParseAttributes(column: string) returns (pairs: map<string, seq<string>>, undelimited: seq<string>)
    ensures pairs == Attributes(AttributeTokens(column))
    ensures undelimited == Undelimited(AttributeTokens(column))
  {
    var attributes := Split(column, SpacedSemicolon);
    pairs, undelimited := map[], [];
    var a := 0;
    while a < |attributes|
      invariant 0 <= a <= |attributes|
      invariant pairs == Attributes(attributes[..a])
      invariant undelimited == Undelimited(attributes[..a])
    {
      assert attributes[..a + 1][..a] == attributes[..a];
      match KeyValue(attributes[a]) {
        case Some(kv) =>
          if kv.0 in pairs {
            pairs := pairs[kv.0 := pairs[kv.0] + [kv.1]];
          } else {
            pairs := pairs[kv.0 := [kv.1]];
          }
        case None =>
          undelimited := undelimited + [attributes[a]];
      }
      a := a + 1;
    }
    assert attributes[..a] == attributes;
  }
}
