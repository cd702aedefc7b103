/**
 * The comma-separated list field of the profile and create-request forms:
 * `text.split(",").map(x => x.trim()).filter(x => x.length > 0)`, and the `join(", ")`
 * that turns a stored list back into form text.
 */
module CommaList {
  import opened Text

  /** `map(x => x.trim())`. */
  function TrimAll(xs: seq<string>): seq<string> {
    seq(|xs|, i requires 0 <= i < |xs| => Trim(xs[i]))
  }

  /** `filter(x => x.length > 0)`. */
  function DropEmpty(xs: seq<string>): (r: seq<string>)
    ensures forall i :: 0 <= i < |r| ==> r[i] != []
    ensures forall x :: x in r ==> x in xs
  {
    if xs == [] then []
    else if xs[0] == [] then DropEmpty(xs[1..])
    else [xs[0]] + DropEmpty(xs[1..])
  }

  /** The list a form field holds: split on commas, trim each piece, drop the empty ones. */
  function ParseList(text: string): (r: seq<string>)
    ensures forall i :: 0 <= i < |r| ==> r[i] != []
  {
    DropEmpty(TrimAll(Split(text, ',')))
  }

  /** A well-formed list item: not empty, its own trim, and free of commas. */
  predicate CleanItem(x: string) {
    x != [] && Trim(x) == x && ',' !in x
  }

  /** Every item of a parsed list is non-empty, trimmed and comma-free. */
  lemma ParsedItemsClean(text: string)
    ensures forall i :: 0 <= i < |ParseList(text)| ==> CleanItem(ParseList(text)[i])
  {
    var pieces := Split(text, ',');
    var trimmed := TrimAll(pieces);
    forall i | 0 <= i < |ParseList(text)| ensures CleanItem(ParseList(text)[i]) {
      var x := ParseList(text)[i];
      assert x in trimmed;
      var k :| 0 <= k < |trimmed| && trimmed[k] == x;
      assert x == Trim(pieces[k]);
      TrimIdempotent(pieces[k]);
    }
  }

  lemma TrimAllConcat(a: seq<string>, b: seq<string>)
    ensures TrimAll(a + b) == TrimAll(a) + TrimAll(b)
  {
    var ab, ta, tb := a + b, TrimAll(a), TrimAll(b);
    var l, r := TrimAll(ab), ta + tb;
    assert |l| == |r|;
    forall i | 0 <= i < |l| ensures l[i] == r[i] {
      if i < |a| {
        assert ab[i] == a[i];
        assert r[i] == ta[i];
      } else {
        var k := i - |a|;
        assert ab[i] == b[k];
        assert r[i] == tb[k];
      }
    }
  }

  lemma {:induction false} DropEmptyConcat(a: seq<string>, b: seq<string>)
    ensures DropEmpty(a + b) == DropEmpty(a) + DropEmpty(b)
  {
    if a != [] {
      assert (a + b)[1..] == a[1..] + b;
      DropEmptyConcat(a[1..], b);
    } else {
      assert a + b == b;
    }
  }

  /** The items before a comma come first, then the items after it, in order. */
  lemma ParseListConcat(a: string, b: string)
    ensures ParseList(a + [','] + b) == ParseList(a) + ParseList(b)
  {
    SplitConcat(a, b, ',');
    TrimAllConcat(Split(a, ','), Split(b, ','));
    DropEmptyConcat(TrimAll(Split(a, ',')), TrimAll(Split(b, ',')));
  }

  /** A single field (no comma) gives its trim, or nothing when that trim is empty. */
  lemma ParseListField(field: string)
    requires ',' !in field
    ensures ParseList(field) == if Trim(field) == [] then [] else [Trim(field)]
  {
    SplitNoSep(field, ',');
    TrimOne(field);
    DropEmptyOne(Trim(field));
  }

  lemma TrimOne(x: string)
    ensures TrimAll([x]) == [Trim(x)]
  {
  }

  lemma DropEmptyOne(x: string)
    ensures DropEmpty([x]) == if x == [] then [] else [x]
  {
    assert [x][1..] == [];
  }

  /** A text made only of commas and white space holds no item. */
  lemma ParseBlank(text: string)
    requires forall i :: 0 <= i < |text| ==> text[i] == ',' || IsWhite(text[i])
    ensures ParseList(text) == []
  {
    var pieces := Split(text, ',');
    var trimmed := TrimAll(pieces);
    SplitPiecesIn(text, ',');
    forall i | 0 <= i < |trimmed| ensures trimmed[i] == [] {
      assert trimmed[i] == Trim(pieces[i]);
      BlankPiece(text, pieces[i]);
    }
    AllDropped(trimmed);
    assert ParseList(text) == DropEmpty(trimmed);
  }

  lemma BlankPiece(text: string, piece: string)
    requires forall i :: 0 <= i < |text| ==> text[i] == ',' || IsWhite(text[i])
    requires ',' !in piece
    requires forall c :: c in piece ==> c in text
    ensures Trim(piece) == []
  {
    forall j | 0 <= j < |piece| ensures IsWhite(piece[j]) {
      assert piece[j] in text;
      var k :| 0 <= k < |text| && text[k] == piece[j];
    }
    TrimAllWhite(piece);
  }

  lemma {:induction false} AllDropped(xs: seq<string>)
    requires forall i :: 0 <= i < |xs| ==> xs[i] == []
    ensures DropEmpty(xs) == []
  {
    if xs != [] {
      AllDropped(xs[1..]);
    }
  }

  /** Leading white space, then clean items joined with `", "`, parse back to those items. */
  lemma {:induction false} ParseJoinAfterWhite(w: string, xs: seq<string>)
    requires AllWhite(w)
    requires forall i :: 0 <= i < |xs| ==> CleanItem(xs[i])
    ensures ParseList(w + Join(xs, ", ")) == xs
    decreases |xs|
  {
    if xs == [] {
      assert w + Join(xs, ", ") == w;
      ParseBlank(w);
    } else if |xs| == 1 {
      assert w + Join(xs, ", ") == w + xs[0];
      FirstItemAfterWhite(w, xs[0]);
    } else {
      ParseJoinAfterWhite(" ", xs[1..]);
      JoinStep(w, xs[0], xs[1..]);
      assert [xs[0]] + xs[1..] == xs;
    }
  }

  lemma JoinStep(w: string, x: string, tail: seq<string>)
    requires AllWhite(w) && CleanItem(x) && tail != []
    requires ParseList(" " + Join(tail, ", ")) == tail
    ensures ParseList(w + Join([x] + tail, ", ")) == [x] + tail
  {
    var rest := " " + Join(tail, ", ");
    JoinCons(x, tail, ", ");
    assert w + Join([x] + tail, ", ") == (w + x) + [','] + rest;
    ParseListConcat(w + x, rest);
    FirstItemAfterWhite(w, x);
  }

  lemma JoinCons(x: string, tail: seq<string>, sep: string)
    requires tail != []
    ensures Join([x] + tail, sep) == x + sep + Join(tail, sep)
  {
    assert ([x] + tail)[1..] == tail;
  }

  lemma FirstItemAfterWhite(w: string, x: string)
    requires AllWhite(w)
    requires CleanItem(x)
    ensures ParseList(w + x) == [x]
  {
    TrimFixed(x);
    TrimWhitePrefix(w, x);
    NoCommaInWhite(w, x);
    ParseListField(w + x);
  }

  lemma NoCommaInWhite(w: string, x: string)
    requires AllWhite(w) && ',' !in x
    ensures ',' !in w + x
  {
  }

  /** The form text `items.join(", ")` parses back to the items, when they are clean. */
  lemma ParseJoinRoundTrip(xs: seq<string>)
    requires forall i :: 0 <= i < |xs| ==> CleanItem(xs[i])
    ensures ParseList(Join(xs, ", ")) == xs
  {
    assert [] + Join(xs, ", ") == Join(xs, ", ");
    ParseJoinAfterWhite([], xs);
  }
}
