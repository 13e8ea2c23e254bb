/** `to_camel_case` from `utils.py`: snake_case to camelCase. */
module CamelCase {
  import opened Text

  /** Python's `str.capitalize`, first character upper-cased and the rest lower-cased (ASCII letters only). */
  function Capitalize(w: string): (r: string)
    ensures |r| == |w|
    ensures |w| > 0 ==> r[0] == AsciiUpperChar(w[0])
    ensures forall i :: 1 <= i < |w| ==> r[i] == AsciiLowerChar(w[i])
  {
    if |w| == 0 then "" else [AsciiUpperChar(w[0])] + AsciiLower(w[1..])
  }

  /** The pieces after the first, each capitalized, concatenated with no separator. */
  function CapitalizedConcat(words: seq<string>): string {
    if |words| == 0 then "" else Capitalize(words[0]) + CapitalizedConcat(words[1..])
  }

  /** `"".join(word.capitalize() if i else word for i, word in enumerate(s.split("_")))`. */
  function ToCamelCase(s: string): string {
    var words := Split(s, '_');
    words[0] + CapitalizedConcat(words[1..])
  }

  /** ASCII case mapping never produces '_'. */
  lemma CapitalizeKeepsUnderscoreOut(w: string)
    requires '_' !in w
    ensures '_' !in Capitalize(w)
  {
    var r := Capitalize(w);
    forall i | 0 <= i < |r|
      ensures r[i] != '_'
    {
      assert w[i] != '_';
    }
  }

  lemma {:induction false} CapitalizedConcatUnderscoreFree(words: seq<string>)
    requires forall i :: 0 <= i < |words| ==> '_' !in words[i]
    ensures '_' !in CapitalizedConcat(words)
    decreases |words|
  {
    if |words| > 0 {
      CapitalizeKeepsUnderscoreOut(words[0]);
      CapitalizedConcatUnderscoreFree(words[1..]);
    }
  }

  /** The result never contains '_'. */
  lemma NoUnderscoreInResult(s: string)
    ensures '_' !in ToCamelCase(s)
  {
    var words := Split(s, '_');
    CapitalizedConcatUnderscoreFree(words[1..]);
  }

  /** A string without '_' comes back verbatim, including its case. */
  lemma NoUnderscoreVerbatim(s: string)
    requires '_' !in s
    ensures ToCamelCase(s) == s
  {
    SplitNoSeparator(s, '_');
  }

  /** Converting twice is converting once. */
  lemma Idempotent(s: string)
    ensures ToCamelCase(ToCamelCase(s)) == ToCamelCase(s)
  {
    NoUnderscoreInResult(s);
    NoUnderscoreVerbatim(ToCamelCase(s));
  }

  /** The first piece is kept as is, and everything after the first '_' is capitalized piece by piece. */
  lemma FirstPieceVerbatim(head: string, rest: string)
    requires '_' !in head
    ensures ToCamelCase(head + "_" + rest) == head + CapitalizedConcat(Split(rest, '_'))
  {
    SplitCons(head, '_', rest);
    assert head + "_" + rest == head + ['_'] + rest;
    assert ([head] + Split(rest, '_'))[1..] == Split(rest, '_');
  }

  /** Empty pieces, from doubled or trailing underscores, contribute nothing. */
  lemma EmptyPiecesVanish(words: seq<string>)
    ensures CapitalizedConcat([""] + words) == CapitalizedConcat(words)
    ensures CapitalizedConcat(words + [""]) == CapitalizedConcat(words)
  {
    assert ([""] + words)[1..] == words;
    ConcatAppendEmpty(words);
  }

  lemma {:induction false} ConcatAppendEmpty(words: seq<string>)
    ensures CapitalizedConcat(words + [""]) == CapitalizedConcat(words)
    decreases |words|
  {
    if |words| == 0 {
      assert CapitalizedConcat([""]) == Capitalize("") + CapitalizedConcat([]);
    } else {
      assert (words + [""])[1..] == words[1..] + [""];
      ConcatAppendEmpty(words[1..]);
    }
  }

  /** `to_camel_case("")` is `""`. */
  lemma EmptyString()
    ensures ToCamelCase("") == ""
  {
  }

  /** Splitting off one '_'-free head and a '_'-free tail: the two pieces. */
  lemma TwoPieces(a: string, b: string)
    requires '_' !in a && '_' !in b
    ensures Split(a + "_" + b, '_') == [a, b]
  {
    assert a + "_" + b == a + ['_'] + b;
    SplitCons(a, '_', b);
    SplitNoSeparator(b, '_');
  }

  /** Three '_'-separated pieces: the first verbatim, the other two capitalized. */
  lemma ThreePieces(a: string, b: string, c: string)
    requires '_' !in a && '_' !in b && '_' !in c
    ensures ToCamelCase(a + "_" + (b + "_" + c)) == a + (Capitalize(b) + Capitalize(c))
  {
    FirstPieceVerbatim(a, b + "_" + c);
    TwoPieces(b, c);
    assert [b, c][1..] == [c];
    assert [c][1..] == [];
    assert CapitalizedConcat([b, c]) == Capitalize(b) + (Capitalize(c) + CapitalizedConcat([]));
  }

  lemma HelloWorldPieces()
    ensures ToCamelCase("hello" + "_" + ("world" + "_" + "example")) == "helloWorldExample"
  {
    ThreePieces("hello", "world", "example");
    CapWorld();
    assert "hello" + "WorldExample" == "helloWorldExample";
  }

  lemma HelloWorldExample()
    ensures ToCamelCase("hello_world_example") == "helloWorldExample"
  {
    HelloWorldPieces();
    assert "hello" + "_" + ("world" + "_" + "example") == "hello_world_example";
  }

  lemma LeadingUnderscorePieces()
    ensures ToCamelCase("" + "_" + ("leading" + "_" + "underscore")) == "LeadingUnderscore"
  {
    ThreePieces("", "leading", "underscore");
    CapLeading();
    assert "" + "LeadingUnderscore" == "LeadingUnderscore";
  }

  lemma LeadingUnderscore()
    ensures ToCamelCase("_leading_underscore") == "LeadingUnderscore"
  {
    LeadingUnderscorePieces();
    assert "" + "_" + ("leading" + "_" + "underscore") == "_leading_underscore";
  }

  lemma TrailingUnderscorePieces()
    ensures ToCamelCase("trailing" + "_" + ("underscore" + "_" + "")) == "trailingUnderscore"
  {
    ThreePieces("trailing", "underscore", "");
    CapTrailing();
    assert "trailing" + "Underscore" == "trailingUnderscore";
  }

  lemma TrailingUnderscore()
    ensures ToCamelCase("trailing_underscore_") == "trailingUnderscore"
  {
    TrailingUnderscorePieces();
    assert "trailing" + "_" + ("underscore" + "_" + "") == "trailing_underscore_";
  }

  lemma CapWorld()
    ensures Capitalize("world") + Capitalize("example") == "WorldExample"
  {
    assert Capitalize("world") == "World";
    assert Capitalize("example") == "Example";
  }

  lemma CapLeading()
    ensures Capitalize("leading") + Capitalize("underscore") == "LeadingUnderscore"
  {
    assert Capitalize("leading") == "Leading";
    assert Capitalize("underscore") == "Underscore";
  }

  lemma CapTrailing()
    ensures Capitalize("underscore") + Capitalize("") == "Underscore"
  {
    assert Capitalize("underscore") == "Underscore";
  }

  lemma AlreadyCamel()
    ensures ToCamelCase("alreadyCamel") == "alreadyCamel"
  {
    NoUnderscoreVerbatim("alreadyCamel");
  }
}
