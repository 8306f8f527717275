/** `cleanInput` of main.go: trim the line, lower-case it and split it into
    the runs of non-whitespace characters (strings.TrimSpace, strings.ToLower
    and strings.Fields), restricted to ASCII case and ASCII whitespace. */
module Words {

  /** The ASCII whitespace of Go's strings.Fields and strings.TrimSpace:
      tab, newline, vertical tab, form feed, carriage return and space. */
  predicate IsSpace(c: char)
  {
    c == ' ' || c == '\t' || c == '\n' || c == '\U{B}' || c == '\U{C}' || c == '\r'
  }

  predicate IsUpper(c: char)
  {
    'A' <= c <= 'Z'
  }

  predicate AllSpace(s: string)
  {
    forall i | 0 <= i < |s| :: IsSpace(s[i])
  }

  /** A word as strings.Fields yields it: non-empty, without whitespace. */
  predicate IsWord(w: string)
  {
    w != [] && forall i | 0 <= i < |w| :: !IsSpace(w[i])
  }

  predicate NoUpper(s: string)
  {
    forall i | 0 <= i < |s| :: !IsUpper(s[i])
  }

  /** unicode.ToLower on ASCII: an upper-case letter becomes the letter
      32 code points above it, every other character is kept. */
  function Lower(c: char): (d: char)
    ensures IsUpper(c) ==> d as int == c as int + 32
    ensures !IsUpper(d)
    ensures IsSpace(d) <==> IsSpace(c)
    ensures !IsUpper(c) ==> d == c
  {
    if IsUpper(c) then (c as int + 32) as char else c
  }

  /** strings.ToLower on ASCII letters; every other character is kept. */
  function ToLower(s: string): (r: string)
    ensures |r| == |s|
    ensures forall i | 0 <= i < |s| :: r[i] == Lower(s[i])
    ensures NoUpper(r)
    ensures forall i | 0 <= i < |s| :: IsSpace(r[i]) <==> IsSpace(s[i])
    ensures NoUpper(s) ==> r == s
  {
    seq(|s|, i requires 0 <= i < |s| => Lower(s[i]))
  }

  /** Drops leading whitespace. */
  function TrimLeft(s: string): (r: string)
    ensures |r| <= |s| && r == s[|s| - |r|..]
    ensures AllSpace(s[..|s| - |r|])
    ensures r == [] || !IsSpace(r[0])
  {
    if s != [] && IsSpace(s[0]) then TrimLeft(s[1..]) else s
  }

  /** Drops trailing whitespace. */
  function TrimRight(s: string): (r: string)
    ensures |r| <= |s| && r == s[..|r|]
    ensures AllSpace(s[|r|..])
    ensures r == [] || !IsSpace(r[|r| - 1])
  {
    if s != [] && IsSpace(s[|s| - 1]) then TrimRight(s[..|s| - 1]) else s
  }

  /** strings.TrimSpace: the result neither starts nor ends with
      whitespace, and is empty exactly when `s` is blank. */
  function TrimSpace(s: string): (r: string)
    ensures |r| <= |s|
    ensures r == [] || (!IsSpace(r[0]) && !IsSpace(r[|r| - 1]))
    ensures r == [] <==> AllSpace(s)
  {
    var t := TrimRight(s);
    var r := TrimLeft(t);
    assert r == [] ==> AllSpace(s) by {
      if r == [] {
        forall k | 0 <= k < |s| ensures IsSpace(s[k]) {
          if k < |t| { assert s[k] == t[..|t|][k]; } else { assert s[k] == s[|t|..][k - |t|]; }
        }
      }
    }
    r
  }

  /** What TrimSpace removes is whitespace on both sides: `s` is some
      whitespace, then TrimSpace(s), then some whitespace. */
  lemma TrimSpaceInfix(s: string) returns (lead: string, trail: string)
    ensures s == lead + TrimSpace(s) + trail
    ensures AllSpace(lead) && AllSpace(trail)
  {
    var t := TrimRight(s);
    var r := TrimLeft(t);
    assert r == TrimSpace(s);
    var k := |t| - |r|;
    lead, trail := t[..k], s[|t|..];
    assert t == lead + r by { SplitAt(t, k); }
    assert s == t + trail by { SplitAt(s, |t|); }
  }

  lemma SplitAt<T>(x: seq<T>, k: nat)
    requires k <= |x|
    ensures x == x[..k] + x[k..]
  {
  }

  /** Length of the run of non-whitespace characters that starts `s`. */
  function WordEnd(s: string): (n: nat)
    ensures n <= |s|
    ensures forall i | 0 <= i < n :: !IsSpace(s[i])
    ensures n == |s| || IsSpace(s[n])
  {
    if s == [] || IsSpace(s[0]) then 0 else 1 + WordEnd(s[1..])
  }

  /** strings.Fields: the maximal runs of non-whitespace, in order.  Each
      is a word, and has no upper-case letter when `s` has none. */
  function Fields(s: string): (r: seq<string>)
    ensures forall i | 0 <= i < |r| :: IsWord(r[i])
    ensures NoUpper(s) ==> forall i | 0 <= i < |r| :: NoUpper(r[i])
    decreases |s|
  {
    if s == [] then []
    else if IsSpace(s[0]) then Fields(s[1..])
    else
      var n := WordEnd(s);
      [s[..n]] + Fields(s[n..])
  }

  /** cleanInput(str) = Fields(ToLower(TrimSpace(str))): every word it
      returns is non-empty, without whitespace and without upper-case. */
  function CleanInput(s: string): (r: seq<string>)
    ensures forall i | 0 <= i < |r| :: IsWord(r[i]) && NoUpper(r[i])
  {
    Fields(ToLower(TrimSpace(s)))
  }

  /** The words joined by single spaces; Fields undoes it. */
  function Join(ws: seq<string>): (r: string)
  {
    if ws == [] then []
    else if |ws| == 1 then ws[0]
    else ws[0] + [' '] + Join(ws[1..])
  }

  // ---------------------------------------------------------------------
  // Fields, characterised by three equations that determine it.

  /** A word-run ends at the first whitespace, whatever follows it. */
  lemma {:induction false} WordEndStable(a: string, c: char, b: string)
    requires IsSpace(c)
    ensures WordEnd(a + [c] + b) == WordEnd(a)
  {
    if a == [] {
    } else if IsSpace(a[0]) {
    } else {
      assert (a + [c] + b)[1..] == a[1..] + [c] + b;
      WordEndStable(a[1..], c, b);
    }
  }

  /** Splitting at any whitespace character splits the fields. */
  lemma {:induction false} FieldsSplit(a: string, c: char, b: string)
    requires IsSpace(c)
    ensures Fields(a + [c] + b) == Fields(a) + Fields(b)
    decreases |a|
  {
    if a == [] {
      assert (a + [c] + b)[1..] == b;
    } else if IsSpace(a[0]) {
      FieldsSplit(a[1..], c, b);
      FieldsSplitSpace(a, c, b);
    } else {
      FieldsSplit(a[WordEnd(a)..], c, b);
      FieldsSplitWord(a, c, b);
    }
  }

  /** The step of FieldsSplit past a leading whitespace character. */
  lemma FieldsSplitSpace(a: string, c: char, b: string)
    requires a != [] && IsSpace(a[0])
    requires Fields(a[1..] + [c] + b) == Fields(a[1..]) + Fields(b)
    ensures Fields(a + [c] + b) == Fields(a) + Fields(b)
  {
    assert (a + [c] + b)[1..] == a[1..] + [c] + b;
  }

  /** The step of FieldsSplit past a leading word. */
  lemma FieldsSplitWord(a: string, c: char, b: string)
    requires IsSpace(c) && a != [] && !IsSpace(a[0])
    requires Fields(a[WordEnd(a)..] + [c] + b) == Fields(a[WordEnd(a)..]) + Fields(b)
    ensures Fields(a + [c] + b) == Fields(a) + Fields(b)
  {
    var w, r := a[..WordEnd(a)], a[WordEnd(a)..];
    FieldsOfWordThenSpace(a, c, b);
    FieldsOfLeadingWord(a);
    AppendAssoc([w], Fields(r), Fields(b));
  }

  lemma AppendAssoc<T>(x: seq<T>, y: seq<T>, z: seq<T>)
    ensures x + (y + z) == (x + y) + z
  {
  }

  /** The leading word of `a` stays the leading field when whitespace and
      more text follow `a`. */
  lemma FieldsOfWordThenSpace(a: string, c: char, b: string)
    requires IsSpace(c) && a != [] && !IsSpace(a[0])
    ensures Fields(a + [c] + b) == [a[..WordEnd(a)]] + Fields(a[WordEnd(a)..] + [c] + b)
  {
    var s, n := a + [c] + b, WordEnd(a);
    WordEndStable(a, c, b);
    assert s[..n] == a[..n] && s[n..] == a[n..] + [c] + b;
    FieldsOfLeadingWord(s);
  }

  /** One unfolding of Fields on a string that starts with a word. */
  lemma FieldsOfLeadingWord(s: string)
    requires s != [] && !IsSpace(s[0])
    ensures Fields(s) == [s[..WordEnd(s)]] + Fields(s[WordEnd(s)..])
  {
  }

  /** A word on its own is one field. */
  lemma {:induction false} FieldsOfWord(w: string)
    requires IsWord(w)
    ensures Fields(w) == [w]
  {
    var n := WordEnd(w);
    assert n == |w|;
    assert w[..n] == w;
    assert w[n..] == [];
    assert Fields(w) == [w[..n]] + Fields(w[n..]);
  }

  /** Fields is empty exactly on whitespace-only strings. */
  lemma {:induction false} FieldsEmpty(s: string)
    ensures Fields(s) == [] <==> AllSpace(s)
    decreases |s|
  {
    if s != [] {
      if IsSpace(s[0]) {
        FieldsEmpty(s[1..]);
        assert AllSpace(s) <==> AllSpace(s[1..]) by {
          if AllSpace(s[1..]) {
            forall i | 0 <= i < |s| ensures IsSpace(s[i]) {
              if i > 0 { assert s[i] == s[1..][i - 1]; }
            }
          }
        }
      }
    }
  }

  /** Round trip: joining words with single spaces and splitting again
      gives the words back. */
  lemma {:induction false} FieldsOfJoin(ws: seq<string>)
    requires forall i | 0 <= i < |ws| :: IsWord(ws[i])
    ensures Fields(Join(ws)) == ws
  {
    if ws == [] {
    } else if |ws| == 1 {
      FieldsOfWord(ws[0]);
    } else {
      FieldsSplit(ws[0], ' ', Join(ws[1..]));
      FieldsOfWord(ws[0]);
      FieldsOfJoin(ws[1..]);
    }
  }

  // ---------------------------------------------------------------------
  // cleanInput.

  /** A blank line (empty or whitespace only) cleans to no words, and only
      a blank line does. */
  lemma CleanInputEmpty(s: string)
    ensures CleanInput(s) == [] <==> AllSpace(s)
  {
    var r := TrimSpace(s);
    FieldsEmpty(ToLower(r));
    assert AllSpace(ToLower(r)) <==> AllSpace(r);
  }

  /** A line of lower-case words separated by single spaces cleans to
      exactly those words. */
  lemma CleanInputOfJoin(ws: seq<string>)
    requires forall i | 0 <= i < |ws| :: IsWord(ws[i]) && NoUpper(ws[i])
    ensures CleanInput(Join(ws)) == ws
  {
    JoinShape(ws);
    var s := Join(ws);
    TrimSpaceIdentity(s);
    FieldsOfJoin(ws);
  }

  /** cleanInput is idempotent on its own output, re-joined. */
  lemma CleanInputIdempotent(s: string)
    ensures CleanInput(Join(CleanInput(s))) == CleanInput(s)
  {
    CleanInputOfJoin(CleanInput(s));
  }

  /** A joined line of words has no upper-case letters when its words have
      none, and neither starts nor ends with whitespace. */
  lemma {:induction false} JoinShape(ws: seq<string>)
    requires forall i | 0 <= i < |ws| :: IsWord(ws[i]) && NoUpper(ws[i])
    ensures NoUpper(Join(ws))
    ensures Join(ws) == [] || (!IsSpace(Join(ws)[0]) && !IsSpace(Join(ws)[|Join(ws)| - 1]))
  {
    if |ws| > 1 {
      JoinShape(ws[1..]);
      var s := Join(ws);
      var tail := Join(ws[1..]);
      assert s == ws[0] + [' '] + tail;
      forall k | 0 <= k < |s| ensures !IsUpper(s[k]) {
        if k < |ws[0]| { assert s[k] == ws[0][k]; }
        else if k > |ws[0]| { assert s[k] == tail[k - |ws[0]| - 1]; }
      }
    }
  }

  /** TrimSpace leaves a string alone when it has no whitespace at either end. */
  lemma TrimSpaceIdentity(s: string)
    requires s == [] || (!IsSpace(s[0]) && !IsSpace(s[|s| - 1]))
    ensures TrimSpace(s) == s
  {
  }

  /** Whitespace around a string does not change its fields. */
  lemma {:induction false} FieldsSpacesAround(a: string, r: string, b: string)
    requires AllSpace(a) && AllSpace(b)
    ensures Fields(a + r + b) == Fields(r)
    decreases |a|
  {
    if a != [] {
      var t := a[1..] + r + b;
      assert a + r + b == [] + [a[0]] + t;
      FieldsSplit([], a[0], t);
      FieldsSpacesAround(a[1..], r, b);
    } else if b != [] {
      assert a + r + b == r + [b[0]] + b[1..];
      FieldsSplit(r, b[0], b[1..]);
      FieldsEmpty(b[1..]);
    } else {
      assert a + r + b == r;
    }
  }

  /** Lower-casing works character by character. */
  lemma ToLowerConcat(a: string, b: string)
    ensures ToLower(a + b) == ToLower(a) + ToLower(b)
  {
  }

  /** Lower-casing keeps a blank string blank. */
  lemma ToLowerBlank(s: string)
    requires AllSpace(s)
    ensures AllSpace(ToLower(s))
  {
  }

  /** The TrimSpace in cleanInput is redundant: splitting already drops
      whitespace at both ends. */
  lemma CleanInputIsFieldsOfLower(s: string)
    ensures CleanInput(s) == Fields(ToLower(s))
  {
    FieldsOfLowerTrim(s);
  }

  lemma FieldsOfLowerTrim(s: string)
    ensures Fields(ToLower(s)) == Fields(ToLower(TrimSpace(s)))
  {
    var r := TrimSpace(s);
    var lead, trail := TrimSpaceInfix(s);
    ToLowerConcat(lead + r, trail);
    ToLowerConcat(lead, r);
    ToLowerBlank(lead);
    ToLowerBlank(trail);
    FieldsSpacesAround(ToLower(lead), ToLower(r), ToLower(trail));
  }

  /** Two words separated by a run of two spaces are two fields. */
  lemma FieldsTwoWords(hello: string, world: string)
    requires IsWord(hello) && IsWord(world)
    ensures Fields(hello + "  " + world) == [hello, world]
  {
    assert hello + "  " + world == hello + [' '] + (" " + world + []);
    FieldsSplit(hello, ' ', " " + world + []);
    FieldsOfWord(hello);
    FieldsSpacesAround(" ", world, []);
    FieldsOfWord(world);
  }

  /** The first case of the repository's test table: runs of spaces
      around and between words are dropped. */
  lemma CleanInputExampleHelloWorld(s: string)
    requires s == "  hello  world  "
    ensures CleanInput(s) == ["hello", "world"]
  {
    assert NoUpper(s);
    CleanInputIsFieldsOfLower(s);
    FieldsHelloWorld(s);
  }

  lemma FieldsHelloWorld(s: string)
    requires s == "  hello  world  "
    ensures Fields(s) == ["hello", "world"]
  {
    var hello, world := "hello", "world";
    assert IsWord(hello) && IsWord(world);
    assert s == "  " + (hello + "  " + world) + "  ";
    FieldsSpacesAround("  ", hello + "  " + world, "  ");
    FieldsTwoWords(hello, world);
  }

  /** A single word with whitespace around it cleans to that word,
      lower-cased. */
  lemma CleanInputOfPaddedWord(lead: string, u: string, trail: string)
    requires AllSpace(lead) && AllSpace(trail) && IsWord(ToLower(u))
    ensures CleanInput(lead + u + trail) == [ToLower(u)]
  {
    var line := lead + u + trail;
    CleanInputIsFieldsOfLower(line);
    ToLowerConcat(lead + u, trail);
    ToLowerConcat(lead, u);
    ToLowerBlank(lead);
    ToLowerBlank(trail);
    FieldsSpacesAround(ToLower(lead), ToLower(u), ToLower(trail));
    FieldsOfWord(ToLower(u));
  }

  /** Case folding: an upper-case command word cleans to its lower-case
      name, so "MAP" runs the map command. */
  lemma CleanInputExampleUpper(s: string)
    requires s == "  MAP "
    ensures CleanInput(s) == ["map"]
  {
    CleanInputIsFieldsOfLower(s);
    LowerMap();
    FieldsMap();
  }

  lemma LowerMap()
    ensures ToLower("  MAP ") == "  map "
  {
    var t := ToLower("  MAP ");
    assert t[2] == Lower('M') == 'm';
    assert t[3] == Lower('A') == 'a';
    assert t[4] == Lower('P') == 'p';
  }

  lemma FieldsMap()
    ensures Fields("  map ") == ["map"]
  {
    var m := "map";
    assert IsWord(m);
    assert "  map " == "  " + m + " ";
    FieldsSpacesAround("  ", m, " ");
    FieldsOfWord(m);
  }

  /** The second case: punctuation belongs to the word, trailing spaces
      are dropped. */
  lemma CleanInputExampleTrailing(s: string)
    requires s == "testing......    "
    ensures CleanInput(s) == ["testing......"]
  {
    var testing, sp := "testing......", "    ";
    assert NoUpper(s);
    assert IsWord(testing) && AllSpace(sp);
    assert s == [] + testing + sp;
    CleanInputIsFieldsOfLower(s);
    FieldsSpacesAround([], testing, sp);
    FieldsOfWord(testing);
  }
}
