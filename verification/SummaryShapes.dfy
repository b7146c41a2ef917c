/** The generated summary of a path made of plain, templated and hyphenated segments. */
module SummaryShapes {
  import opened Text
  import opened TextLaws
  import opened OperationIds
  import opened IdShapes
  import opened Enrichment

  datatype Piece = Fixed(word: string) | Template(word: string) | Linked(left: string, link: char, right: string)

  predicate ValidPiece(piece: Piece) {
    match piece
    case Fixed(word) => Word(word)
    case Template(word) => Word(word)
    case Linked(left, link, right) => Word(left) && Word(right) && (link == '-' || link == '_')
  }

  predicate ValidPieces(pieces: seq<Piece>) {
    forall i :: 0 <= i < |pieces| ==> ValidPiece(pieces[i])
  }

  /** The segment as written in a path. */
  function Written(piece: Piece): string {
    match piece
    case Fixed(word) => word
    case Template(word) => "{" + word + "}"
    case Linked(left, link, right) => left + [link] + right
  }

  /** The segment as it reads in a summary. */
  function Spoken(piece: Piece): string {
    match piece
    case Fixed(word) => word
    case Template(word) => word
    case Linked(left, _, right) => left + " " + right
  }

  function PathOf(pieces: seq<Piece>): string {
    if pieces == [] then "" else PathOf(pieces[..|pieces| - 1]) + "/" + Written(pieces[|pieces| - 1])
  }

  function WrittenAll(pieces: seq<Piece>): seq<string> {
    seq(|pieces|, i requires 0 <= i < |pieces| => Written(pieces[i]))
  }

  /** The segments one after the other, with single blanks between them. */
  function Sentence(pieces: seq<Piece>): string {
    if pieces == [] then ""
    else if |pieces| == 1 then Spoken(pieces[0])
    else Spoken(pieces[0]) + " " + Sentence(pieces[1..])
  }

  // ---- Cleaning -------------------------------------------------------------------------------

  lemma {:induction false} CleanAppend(a: string, b: string)
    ensures CleanSegment(a + b) == CleanSegment(a) + CleanSegment(b)
    decreases |a|
  {
    if a == "" {
      assert a + b == b;
    } else {
      CleanAppend(a[1..], b);
      assert (a + b)[1..] == a[1..] + b;
    }
  }

  lemma {:induction false} CleanWord(a: string)
    requires forall i :: 0 <= i < |a| ==> LetterOrDigit(a[i])
    ensures CleanSegment(a) == a
    decreases |a|
  {
    if a != "" { CleanWord(a[1..]); }
  }

  lemma CleanOne(c: char)
    ensures CleanSegment([c]) == if c == '{' || c == '}' then "" else if c == '-' || c == '_' then " " else [c]
  {
    assert [c][1..] == "";
  }

  lemma CleanTemplate(word: string)
    requires Word(word)
    ensures CleanSegment("{" + word + "}") == word
  {
    hide CleanSegment;
    CleanWord(word);
    CleanOne('{');
    CleanOne('}');
    CleanAppend("{", word + "}");
    CleanAppend(word, "}");
    assert "{" + word + "}" == "{" + (word + "}");
  }

  lemma CleanLinked(left: string, link: char, right: string)
    requires Word(left) && Word(right) && (link == '-' || link == '_')
    ensures CleanSegment(left + [link] + right) == left + " " + right
  {
    hide CleanSegment;
    CleanWord(left);
    CleanWord(right);
    CleanOne(link);
    CleanAppend(left, [link] + right);
    CleanAppend([link], right);
    assert left + [link] + right == left + ([link] + right);
    assert left + (" " + right) == left + " " + right;
  }

  lemma CleanPiece(piece: Piece)
    requires ValidPiece(piece)
    ensures CleanSegment(Written(piece)) == Spoken(piece) != ""
    ensures LetterOrDigit(Spoken(piece)[0]) && LetterOrDigit(Spoken(piece)[|Spoken(piece)| - 1])
    ensures '/' !in Written(piece) && Written(piece) != ""
  {
    hide CleanSegment;
    match piece
    case Fixed(word) => CleanWord(word);
    case Template(word) => CleanTemplate(word);
    case Linked(left, link, right) => CleanLinked(left, link, right);
  }

  lemma {:induction false} CleanPieces(pieces: seq<Piece>)
    requires ValidPieces(pieces)
    ensures |CleanSegments(WrittenAll(pieces))| == |pieces|
    ensures Join(CleanSegments(WrittenAll(pieces)), " ") == Sentence(pieces)
    decreases |pieces|
  {
    hide CleanSegment, Written, Spoken, ValidPiece;
    if pieces != [] {
      CleanPiece(pieces[0]);
      CleanPieces(pieces[1..]);
      assert WrittenAll(pieces)[1..] == WrittenAll(pieces[1..]);
      var rest := CleanSegments(WrittenAll(pieces[1..]));
      assert CleanSegments(WrittenAll(pieces)) == [Spoken(pieces[0])] + rest;
      assert ([Spoken(pieces[0])] + rest)[1..] == rest;
    }
  }

  lemma {:induction false} SentenceEnds(pieces: seq<Piece>)
    requires ValidPieces(pieces) && pieces != []
    ensures var t := Sentence(pieces); t != "" && LetterOrDigit(t[0]) && LetterOrDigit(t[|t| - 1])
    decreases |pieces|
  {
    hide Written, Spoken, ValidPiece;
    CleanPiece(pieces[0]);
    if |pieces| > 1 { SentenceEnds(pieces[1..]); }
  }

  lemma NothingToTrim(t: string)
    requires t != "" && LetterOrDigit(t[0]) && LetterOrDigit(t[|t| - 1])
    ensures Trim(t) == t
  {
  }

  // ---- The path ----------------------------------------------------------------------------------

  lemma {:induction false} PathSplits(pieces: seq<Piece>)
    requires ValidPieces(pieces)
    ensures Split(PathOf(pieces), '/') == [""] + WrittenAll(pieces)
    decreases |pieces|
  {
    hide Written, ValidPiece;
    if pieces == [] {
      assert WrittenAll(pieces) == [];
    } else {
      var n := |pieces| - 1;
      PathSplits(pieces[..n]);
      CleanPiece(pieces[n]);
      SplitLast(PathOf(pieces[..n]), Written(pieces[n]), '/');
      assert WrittenAll(pieces) == WrittenAll(pieces[..n]) + [Written(pieces[n])];
      assert [""] + WrittenAll(pieces[..n]) + [Written(pieces[n])] == [""]
          + (WrittenAll(pieces[..n]) + [Written(pieces[n])]);
    }
  }

  lemma {:induction false} PathStarts(pieces: seq<Piece>)
    requires ValidPieces(pieces) && pieces != []
    ensures PathOf(pieces) != "" && PathOf(pieces)[0] == '/'
    decreases |pieces|
  {
    if |pieces| > 1 { PathStarts(pieces[..|pieces| - 1]); }
  }

  /** The resource named by a path that starts with a slash and is not versioned. */
  lemma ResourceOf(pieces: seq<Piece>)
    requires ValidPieces(pieces) && pieces != []
    ensures PathOf(pieces) != ""
        && Trim(Join(CleanSegments(Split(PathOf(pieces)[1..], '/')), " ")) == Sentence(pieces) != ""
  {
    hide Written, Spoken, ValidPiece, CleanSegments, Trim, Join;
    PathStarts(pieces);
    PathSplits(pieces);
    SplitStartsEmpty(PathOf(pieces));
    var rest := Split(PathOf(pieces)[1..], '/');
    assert ([""] + rest)[1..] == rest && ([""] + WrittenAll(pieces))[1..] == WrittenAll(pieces);
    CleanPieces(pieces);
    SentenceEnds(pieces);
    NothingToTrim(Sentence(pieces));
  }

  lemma UnversionedIsBare(p: string)
    requires p != "" && p[0] == '/' && !Versioned(p)
    ensures StripV1Prefix(p) == p && StripV1Prefix("/v1" + p) == p && StartsWith(p, "/")
  {
    var q := "/v1" + p;
    assert q[..4] == "/v1/" && q[3..] == p;
    assert p[..1] == "/";
  }

  lemma ActionIs(verb: string)
    ensures verb == "get" ==> Action(verb) + " " == "Retrieve "
    ensures verb == "post" ==> Action(verb) + " " == "Create or execute "
    ensures verb == "put" || verb == "patch" ==> Action(verb) + " " == "Update "
    ensures verb == "delete" ==> Action(verb) + " " == "Delete "
    ensures verb == "options" || verb == "head" ==> Action(verb) + " " == "Inspect "
    ensures verb == "trace" ==> Action(verb) + " " == "Trace "
  {
  }

  /** What is done, by method, and to what, by path; the version prefix plays no part. */
  lemma SummaryReads(verb: string, pieces: seq<Piece>)
    requires ValidPieces(pieces) && pieces != [] && !Versioned(PathOf(pieces))
    ensures FunctionalSummary(verb, PathOf(pieces)) == FunctionalSummary(verb, "/v1" + PathOf(pieces))
    ensures verb == "get" ==> FunctionalSummary(verb, PathOf(pieces)) == "Retrieve " + Sentence(pieces)
    ensures verb == "post" ==> FunctionalSummary(verb, PathOf(pieces)) == "Create or execute " + Sentence(pieces)
    ensures verb == "put" || verb == "patch" ==> FunctionalSummary(verb, PathOf(pieces)) == "Update " + Sentence(pieces)
    ensures verb == "delete" ==> FunctionalSummary(verb, PathOf(pieces)) == "Delete " + Sentence(pieces)
    ensures verb == "options" || verb == "head" ==>
        FunctionalSummary(verb, PathOf(pieces)) == "Inspect " + Sentence(pieces)
    ensures verb == "trace" ==> FunctionalSummary(verb, PathOf(pieces)) == "Trace " + Sentence(pieces)
  {
    hide StripV1Prefix, Versioned, Trim, Join, CleanSegments, Split, Sentence, PathOf;
    var p := PathOf(pieces);
    PathStarts(pieces);
    ResourceOf(pieces);
    UnversionedIsBare(p);
    ActionIs(verb);
    assert FunctionalSummary(verb, p) == Action(verb) + " " + Sentence(pieces);
  }

  /** The root. */
  lemma RootSummary(verb: string)
    ensures FunctionalSummary(verb, "/") == FunctionalSummary(verb, "/v1") == Action(verb) + " root resource"
  {
    hide Action;
    assert "/"[1..] == "" && Split("", '/') == [""] && CleanSegment("") == "";
    assert [""][1..] == [] && CleanSegments([]) == [] && CleanSegments([""]) == [];
    assert Join([], " ") == "" && Trim("") == "";
    assert Action(verb) + " " + "root resource" == Action(verb) + " root resource";
  }

  /** A generated description opens with the summary, and the path stands in it at one place, the same
      for all paths. */
  lemma DescriptionReads(summary: string) returns (k: nat)
    ensures var d := FunctionalDescription(summary, "");
            && |summary| < k <= |d| && d[..|summary|] == summary
            && forall path: string :: FunctionalDescription(summary, path) == d[..k] + path + d[k..]
  {
    var note, rest := ".\n\nEnterprise contract notes:\n- Purpose: exposes ",
        " as a governed API capability inside the CI Fabric.";
    var start, d := summary + note, FunctionalDescription(summary, "");
    k := |start|;
    assert d == start + rest && d[..k] == start && d[k..] == rest;
    forall path: string ensures FunctionalDescription(summary, path) == d[..k] + path + d[k..] {
      assert FunctionalDescription(summary, path) == start + path + rest;
    }
  }
}
