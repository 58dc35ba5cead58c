/** Identifiers: their order, and lists of them passed around as comma-separated text. */
module IdLists {
  import opened FiniteSets

  /** Lexicographic order, as the database compares text. */
  predicate Less(a: string, b: string) {
    if b == "" then false
    else if a == "" then true
    else if a[0] != b[0] then a[0] < b[0]
    else Less(a[1..], b[1..])
  }

  lemma {:induction false} LessIsTotal(a: string, b: string)
    ensures a == b || Less(a, b) || Less(b, a)
    ensures !(Less(a, b) && Less(b, a)) && !Less(a, a)
  {
    if a != "" && b != "" && a[0] == b[0] {
      LessIsTotal(a[1..], b[1..]);
      assert a[1..] == b[1..] ==> a == [a[0]] + a[1..] == b;
    }
    if a != "" {
      LessIsTotal(a[1..], a[1..]);
    }
  }

  lemma {:induction false} LessIsTransitive(a: string, b: string, c: string)
    requires Less(a, b) && Less(b, c)
    ensures Less(a, c)
  {
    if a != "" && a[0] == b[0] && b[0] == c[0] {
      LessIsTransitive(a[1..], b[1..], c[1..]);
    }
  }

  /** The first difference decides; a proper prefix comes first. */
  lemma {:induction false} FirstDifferenceDecides(common: string, x: char, y: char, a: string, b: string)
    requires x < y
    ensures Less(common + [x] + a, common + [y] + b) && Less(common, common + [x] + a)
    decreases |common|
  {
    if common == "" {
      assert common + [x] + a == [x] + a && common + [y] + b == [y] + b;
    } else {
      var c, rest := common[0], common[1..];
      FirstDifferenceDecides(rest, x, y, a, b);
      LessCons(c, rest + [x] + a, rest + [y] + b);
      LessCons(c, rest, rest + [x] + a);
      assert common == [c] + rest;
      assert common + [x] + a == [c] + (rest + [x] + a) && common + [y] + b == [c] + (rest + [y] + b);
    }
  }

  lemma LessCons(c: char, a: string, b: string)
    ensures Less([c] + a, [c] + b) == Less(a, b)
  {
    assert ([c] + a)[1..] == a && ([c] + b)[1..] == b;
  }

  lemma {:induction false} LeastOf(ids: set<string>) returns (least: string)
    requires ids != {}
    ensures least in ids && forall id :: id in ids ==> !Less(id, least)
    decreases |ids|
  {
    least := Pick(ids);
    var rest := ids - {least};
    assert ids == rest + {least};
    LessIsTotal(least, least);
    if rest != {} {
      var other := LeastOf(rest);
      LessIsTotal(other, least);
      if Less(other, least) {
        least := other;
      } else {
        forall id | id in rest ensures !Less(id, least) {
          LessIsTotal(other, id);
          if Less(id, least) {
            if other != id { LessIsTransitive(other, id, least); }
          }
        }
      }
    }
  }

  // ---- Joining and splitting ----

  function JoinIds(ids: seq<string>): string {
    if ids == [] then ""
    else if |ids| == 1 then ids[0]
    else ids[0] + "," + JoinIds(ids[1..])
  }

  /** Splitting at commas; the text before the next comma is `word` so far. */
  function SplitFrom(word: string, text: string): seq<string>
    decreases |text|
  {
    if text == "" then [word]
    else if text[0] == ',' then [word] + SplitFrom("", text[1..])
    else SplitFrom(word + [text[0]], text[1..])
  }

  function NonEmpty(words: seq<string>): seq<string> {
    if words == [] then [] else (if words[0] == "" then [] else [words[0]]) + NonEmpty(words[1..])
  }

  /** The identifiers read back from a joined list. */
  function ReadIds(text: string): seq<string> {
    NonEmpty(SplitFrom("", text))
  }

  predicate Clean(id: string) {
    id != "" && ',' !in id
  }

  lemma {:induction false} SplitAtComma(word: string, id: string, rest: string)
    ensures SplitFrom(word, id + "," + rest) == SplitFrom(word, id) + SplitFrom("", rest)
    decreases |id|
  {
    if id == "" {
      assert "" + "," + rest == "," + rest && ("," + rest)[1..] == rest;
    } else {
      assert (id + "," + rest)[1..] == id[1..] + "," + rest;
      if id[0] == ',' {
        SplitAtComma("", id[1..], rest);
      } else {
        SplitAtComma(word + [id[0]], id[1..], rest);
      }
    }
  }

  lemma {:induction false} SplitWord(word: string, id: string)
    requires ',' !in id
    ensures SplitFrom(word, id) == [word + id]
    decreases |id|
  {
    if id == "" {
      assert word + "" == word;
    } else {
      SplitWord(word + [id[0]], id[1..]);
      assert word + [id[0]] + id[1..] == word + id;
    }
  }

  lemma NonEmptyCons(word: string, rest: seq<string>)
    ensures NonEmpty([word] + rest) == (if word == "" then [] else [word]) + NonEmpty(rest)
  {
    assert ([word] + rest)[1..] == rest;
  }

  lemma {:induction false} NonEmptyOfConcat(a: seq<string>, b: seq<string>)
    ensures NonEmpty(a + b) == NonEmpty(a) + NonEmpty(b)
  {
    if a == [] {
      assert [] + b == b && NonEmpty(a) + NonEmpty(b) == NonEmpty(b);
    } else {
      NonEmptyOfConcat(a[1..], b);
      assert a == [a[0]] + a[1..] && a + b == [a[0]] + (a[1..] + b);
      NonEmptyCons(a[0], a[1..]);
      NonEmptyCons(a[0], a[1..] + b);
    }
  }

  /** Everything read back from the ids one by one, in order. */
  function ReadEach(ids: seq<string>): seq<string> {
    if ids == [] then [] else ReadIds(ids[0]) + ReadEach(ids[1..])
  }

  /** Reading a joined list back gives the comma pieces of every id, in order, and nothing else. */
  lemma {:induction false} ReadOfJoin(ids: seq<string>)
    ensures ReadIds(JoinIds(ids)) == ReadEach(ids)
  {
    if ids == [] {
      NothingRead();
    } else if |ids| == 1 {
      assert ids[1..] == [] && ReadIds(ids[0]) + [] == ReadIds(ids[0]);
    } else {
      ReadOfJoin(ids[1..]);
      SplitAtComma("", ids[0], JoinIds(ids[1..]));
      NonEmptyOfConcat(SplitFrom("", ids[0]), SplitFrom("", JoinIds(ids[1..])));
    }
  }

  lemma NothingRead()
    ensures ReadIds("") == []
  {
    assert SplitFrom("", "") == [""] && [""][1..] == [] && NonEmpty([]) == [];
  }

  lemma {:induction false} ReadEachHas(ids: seq<string>, x: string)
    ensures x in ReadEach(ids) <==> exists id :: id in ids && x in ReadIds(id)
  {
    if ids != [] {
      ReadEachHas(ids[1..], x);
      assert ids == [ids[0]] + ids[1..];
    }
  }

  /** An id is read back on its own, whole, exactly when it is clean. */
  lemma CleanIdsReadBack(id: string)
    ensures ReadIds(id) == [id] <==> Clean(id)
  {
    if Clean(id) {
      SplitWord("", id);
      assert "" + id == id && [id][1..] == [] && NonEmpty([]) == [];
    } else if ReadIds(id) == [id] {
      UncleanIsNeverRead(id, id);
    }
  }

  /** Joining clean identifiers and reading them back gives the same list. */
  lemma {:induction false} ReadJoinRoundTrip(ids: seq<string>)
    requires forall id :: id in ids ==> Clean(id)
    ensures ReadIds(JoinIds(ids)) == ids
  {
    ReadOfJoin(ids);
    if ids != [] {
      ReadJoinRoundTrip(ids[1..]);
      ReadOfJoin(ids[1..]);
      CleanIdsReadBack(ids[0]);
    }
  }

  lemma {:induction false} SplitHasNoCommas(word: string, text: string, id: string)
    requires ',' !in word && id in SplitFrom(word, text)
    ensures ',' !in id
    decreases |text|
  {
    if text != "" && text[0] == ',' {
      if id != word {
        SplitHasNoCommas("", text[1..], id);
      }
    } else if text != "" {
      SplitHasNoCommas(word + [text[0]], text[1..], id);
    }
  }

  lemma {:induction false} NonEmptyKeeps(words: seq<string>, id: string)
    ensures id in NonEmpty(words) <==> id in words && id != ""
  {
    if words != [] {
      NonEmptyKeeps(words[1..], id);
      assert words == [words[0]] + words[1..];
    }
  }

  /** An identifier with a comma in it, or an empty one, is never read back. */
  lemma UncleanIsNeverRead(text: string, id: string)
    requires id in ReadIds(text)
    ensures Clean(id)
  {
    NonEmptyKeeps(SplitFrom("", text), id);
    SplitHasNoCommas("", text, id);
  }
}
