/** The avatar fallback text of the user menu: the `userInitials` expression of
    `UserMenu`, as a function of the session's user record. */
module UserMenu {
  import opened Js
  import opened Strings

  /** The user record of the session, as far as the initials read it. */
  datatype User = User(name: Option<string>, email: string)

  /** `user.name` is truthy: a string is falsy when it is `undefined` or empty. */
  predicate HasName(u: User)
    ensures !HasName(u) <==> u.name == None || u.name == Some([])
    ensures HasName(u) ==> |u.name.value| >= 1
  {
    u.name.Some? && u.name.value != []
  }

  /** `n[0]`: the first character of a piece, or `undefined` for an empty piece. */
  function FirstChar(piece: string): (c: Option<char>)
    ensures c == None <==> piece == []
    ensures c.Some? ==> c.value == piece[0]
  {
    if piece == [] then None else Some(piece[0])
  }

  /** How `join` renders an element: `undefined` as the empty string. */
  function Render(c: Option<char>): (r: string)
    ensures |r| <= 1
    ensures r == [] <==> c == None
    ensures c.Some? ==> r[0] == c.value
  {
    match c
    case None => []
    case Some(ch) => [ch]
  }

  /** `pieces.map((n) => n[0])`, each element as `join` renders it. */
  function RenderedFirstChars(pieces: seq<string>): (r: seq<string>)
    ensures |r| == |pieces|
    ensures forall i :: 0 <= i < |pieces| ==> r[i] == Render(FirstChar(pieces[i]))
  {
    seq(|pieces|, i requires 0 <= i < |pieces| => Render(FirstChar(pieces[i])))
  }

  /** `pieces.map((n) => n[0]).join("")`: empty pieces contribute no
      character, each non-empty piece its first one, in order. */
  function JoinedFirstChars(pieces: seq<string>): (r: string)
    ensures r == Letters(NonEmpty(pieces))
  {
    JoinedFirstCharsAreLetters(pieces);
    Join(RenderedFirstChars(pieces), [])
  }

  /** The initials taken from a truthy name: split on a space, first character
      of each piece, joined, upper-cased, first two characters kept. That is
      the upper-cased first letters of the first two words. */
  function NameInitials(name: string): (r: string)
    ensures r == WordInitials(Words(name))
    ensures |r| <= 2 && NoLower(r)
  {
    NonEmptyPiecesAreWords(name);
    var ws := Words(name);
    assert Letters(ws)[..Min(2, |ws|)] == Letters(ws[..Min(2, |ws|)]);
    Prefix(Upper(JoinedFirstChars(Split(name, ' '))), 2)
  }

  /** `userInitials`: `None` when there is no user (the optional chain stops);
      the name's initials when the name is truthy; otherwise the upper-cased
      first character of the email, which throws a `TypeError` when the email
      is empty because `email[0]` is then `undefined`. */
  function Initials(user: Option<User>): (r: Completion<Option<string>>)
    ensures user.None? <==> r == Normal(None)
    ensures r.Throw? <==> user.Some? && !HasName(user.value) && user.value.email == []
    ensures r.Throw? ==> r.error == TypeError
    ensures r.Normal? && user.Some? ==> r.value.Some? && |r.value.value| <= 2 && NoLower(r.value.value)
    ensures user.Some? && !HasName(user.value) && user.value.email != [] ==>
      r == Normal(Some([UpperChar(user.value.email[0])]))
  {
    match user
    case None => Normal(None)
    case Some(u) =>
      if HasName(u) then Normal(Some(NameInitials(u.name.value)))
      else if u.email == [] then Throw(TypeError)
      else Normal(Some([UpperChar(u.email[0])]))
  }

  // ---------------------------------------------------------------------------
  // A reference reading of the name: its words

  /** The words of `s`: the maximal runs of characters other than a space, in
      order. */
  function Words(s: string): (ws: seq<string>)
    ensures forall i :: 0 <= i < |ws| ==> ws[i] != [] && ' ' !in ws[i]
    decreases |s|
  {
    if s == [] then []
    else if s[0] == ' ' then Words(s[1..])
    else
      var n := RunLength(s, ' ');
      [s[..n]] + Words(s[n..])
  }

  /** The characters of `s` other than spaces, in order. */
  function NonSpaces(s: string): (r: string)
  {
    if s == [] then [] else (if s[0] == ' ' then [] else [s[0]]) + NonSpaces(s[1..])
  }

  /** The words concatenated. */
  function Concat(ws: seq<string>): (r: string)
  {
    if ws == [] then [] else ws[0] + Concat(ws[1..])
  }

  lemma {:induction false} NonSpacesOfWord(w: string, rest: string)
    requires ' ' !in w
    ensures NonSpaces(w + rest) == w + NonSpaces(rest)
  {
    if w != [] {
      assert w[0] != ' ' && ' ' !in w[1..];
      assert (w + rest)[0] == w[0] && (w + rest)[1..] == w[1..] + rest;
      NonSpacesOfWord(w[1..], rest);
    } else {
      assert w + rest == rest;
    }
  }

  /** The words lose no character of the name but its spaces: concatenated,
      they are the name with every space removed. */
  lemma {:induction false} WordsKeepNonSpaces(s: string)
    ensures Concat(Words(s)) == NonSpaces(s)
    decreases |s|
  {
    if s != [] {
      if s[0] == ' ' {
        WordsKeepNonSpaces(s[1..]);
      } else {
        var n := RunLength(s, ' ');
        WordsKeepNonSpaces(s[n..]);
        NonSpacesOfWord(s[..n], s[n..]);
        assert s == s[..n] + s[n..];
        assert ([s[..n]] + Words(s[n..]))[1..] == Words(s[n..]);
      }
    }
  }

  /** The first letter of each word, in order. */
  function Letters(ws: seq<string>): (r: string)
    requires forall i :: 0 <= i < |ws| ==> ws[i] != []
    ensures |r| == |ws|
    ensures forall i :: 0 <= i < |ws| ==> r[i] == ws[i][0]
  {
    seq(|ws|, i requires 0 <= i < |ws| => ws[i][0])
  }

  /** The non-empty pieces, in order. */
  function NonEmpty(pieces: seq<string>): (r: seq<string>)
    ensures forall i :: 0 <= i < |r| ==> r[i] != []
  {
    if pieces == [] then []
    else if pieces[0] == [] then NonEmpty(pieces[1..])
    else [pieces[0]] + NonEmpty(pieces[1..])
  }

  /** The non-empty pieces of a split on spaces are exactly the words. */
  lemma {:induction false} NonEmptyPiecesAreWords(s: string)
    ensures NonEmpty(Split(s, ' ')) == Words(s)
    decreases |s|
  {
    if s != [] {
      var n := RunLength(s, ' ');
      SplitAtFirst(s, ' ');
      var tail := if n == |s| then [] else Split(s[n + 1..], ' ');
      assert Split(s, ' ') == [s[..n]] + tail;
      assert ([s[..n]] + tail)[1..] == tail;
      if n == 0 {
        NonEmptyPiecesAreWords(s[1..]);
      } else if n < |s| {
        NonEmptyPiecesAreWords(s[n + 1..]);
        assert s[n..][1..] == s[n + 1..];
      }
    }
  }

  /** Empty pieces contribute no character; each non-empty piece contributes
      its first one. */
  lemma {:induction false} JoinedFirstCharsAreLetters(pieces: seq<string>)
    ensures Join(RenderedFirstChars(pieces), []) == Letters(NonEmpty(pieces))
  {
    if pieces != [] {
      var rest := pieces[1..];
      var head := Render(FirstChar(pieces[0]));
      RenderedFirstCharsCons(pieces);
      JoinEmptySep(head, RenderedFirstChars(rest));
      JoinedFirstCharsAreLetters(rest);
      var ne := NonEmpty(rest);
      if pieces[0] == [] {
        assert head == [];
        assert NonEmpty(pieces) == ne;
      } else {
        assert head == [pieces[0][0]];
        assert NonEmpty(pieces) == [pieces[0]] + ne;
        LettersCons(pieces[0], ne);
      }
    }
  }

  lemma RenderedFirstCharsCons(pieces: seq<string>)
    requires pieces != []
    ensures RenderedFirstChars(pieces)
      == [Render(FirstChar(pieces[0]))] + RenderedFirstChars(pieces[1..])
  {
  }

  lemma LettersCons(w: string, ws: seq<string>)
    requires w != []
    requires forall i :: 0 <= i < |ws| ==> ws[i] != []
    ensures Letters([w] + ws) == [w[0]] + Letters(ws)
  {
  }

  /** The initials of a word list: the upper-cased first letters of its first
      two words. */
  function WordInitials(ws: seq<string>): (r: string)
    requires forall i :: 0 <= i < |ws| ==> ws[i] != []
    ensures |r| == Min(2, |ws|)
    ensures forall i :: 0 <= i < |r| ==> r[i] == UpperChar(ws[i][0])
  {
    Upper(Letters(ws[..Min(2, |ws|)]))
  }

  /** A truthy name gives the upper-cased first letters of its first two
      words, in order; in particular at most two characters, one per word. */
  lemma InitialsFromWords(u: User)
    requires HasName(u)
    ensures Initials(Some(u)) == Normal(Some(WordInitials(Words(u.name.value))))
  {
  }

  /** Only the words of the name matter: extra spaces before, after or between
      the words change nothing. */
  lemma SameWordsSameInitials(u: User, v: User)
    requires HasName(u) && HasName(v)
    requires Words(u.name.value) == Words(v.name.value)
    ensures Initials(Some(u)) == Initials(Some(v))
  {
  }

  /** A truthy name takes precedence: the email is not read. */
  lemma NameTakesPrecedence(u: User, email: string)
    requires HasName(u)
    ensures Initials(Some(u)) == Initials(Some(u.(email := email)))
  {
  }

  /** A name without spaces is one word and gives exactly one character. */
  lemma SingleWordOneChar(u: User)
    requires HasName(u) && ' ' !in u.name.value
    ensures Initials(Some(u)) == Normal(Some([UpperChar(u.name.value[0])]))
  {
  }

  lemma {:induction false} SpacesHaveNoWords(s: string)
    requires forall i :: 0 <= i < |s| ==> s[i] == ' '
    ensures Words(s) == []
    decreases |s|
  {
    if s != [] {
      SpacesHaveNoWords(s[1..]);
    }
  }

  /** A name made only of spaces is truthy, so the email is not used, yet it
      has no words: the initials are the empty string. */
  lemma SpacesOnlyNameGivesEmpty(u: User)
    requires HasName(u)
    requires forall i :: 0 <= i < |u.name.value| ==> u.name.value[i] == ' '
    ensures Initials(Some(u)) == Normal(Some([]))
  {
    SpacesHaveNoWords(u.name.value);
    InitialsFromWords(u);
  }

  // ---------------------------------------------------------------------------
  // Examples

  lemma DoeWords()
    ensures Words("Doe") == ["Doe"]
    ensures Words(" Doe") == ["Doe"]
    ensures Words("  Doe") == ["Doe"]
  {
    assert RunLength("Doe", ' ') == 3;
    assert "Doe"[..3] == "Doe" && "Doe"[3..] == [];
    assert " Doe"[1..] == "Doe";
    assert "  Doe"[1..] == " Doe";
  }

  lemma JaneDoeWordInitials()
    ensures WordInitials(["Jane", "Doe"]) == "JD"
  {
  }

  /** A word followed by a space is the first word. */
  lemma {:induction false} WordBeforeSpace(w: string, rest: string)
    requires w != [] && ' ' !in w
    requires rest != [] && rest[0] == ' '
    ensures Words(w + rest) == [w] + Words(rest)
  {
    var s := w + rest;
    RunLengthOfWord(w, rest);
    assert s[..|w|] == w && s[|w|..] == rest;
  }

  lemma {:induction false} RunLengthOfWord(w: string, rest: string)
    requires ' ' !in w
    requires rest != [] && rest[0] == ' '
    ensures RunLength(w + rest, ' ') == |w|
  {
    if w != [] {
      assert w[0] != ' ' && ' ' !in w[1..];
      assert (w + rest)[1..] == w[1..] + rest;
      RunLengthOfWord(w[1..], rest);
    } else {
      assert w + rest == rest;
    }
  }

  lemma JaneDoeWords()
    ensures Words("Jane Doe") == ["Jane", "Doe"]
    ensures Words("Jane  Doe") == ["Jane", "Doe"]
  {
    DoeWords();
    assert "Jane Doe" == "Jane" + " Doe";
    assert "Jane  Doe" == "Jane" + "  Doe";
    WordBeforeSpace("Jane", " Doe");
    WordBeforeSpace("Jane", "  Doe");
  }

  lemma JaneDoe()
    ensures Initials(Some(User(Some("Jane Doe"), "jane@x.com"))) == Normal(Some("JD"))
  {
    JaneDoeWords();
    JaneDoeWordInitials();
    InitialsFromWords(User(Some("Jane Doe"), "jane@x.com"));
  }

  /** A doubled space gives an empty piece, which adds no character. */
  lemma JaneDoubleSpaceDoe()
    ensures Initials(Some(User(Some("Jane  Doe"), "jane@x.com"))) == Normal(Some("JD"))
  {
    JaneDoeWords();
    JaneDoeWordInitials();
    InitialsFromWords(User(Some("Jane  Doe"), "jane@x.com"));
  }

  lemma EmailFallback()
    ensures Initials(Some(User(None, "bob@x.com"))) == Normal(Some("B"))
    ensures Initials(Some(User(Some(""), "bob@x.com"))) == Normal(Some("B"))
  {
  }
}
