/** The notes side panel: the text filter over notes, the filtered list model behind
    the panel, and which note actions the panel enables. */
module Notes {
  import opened Wrappers
  import opened Strings

  datatype NoteState = Open | Closed

  datatype NoteAction = Opened | Commented | ClosedAction | Reopened | Hidden

  /** The parts of the last comment the filter looks at. */
  datatype LastComment = LastComment(action: NoteAction, isNew: bool)

  /** A note as the filter sees it; `commentsText` is the string form of its comment
      list (`note.getComments().toString()`). */
  datatype Note = Note(id: int, state: NoteState, lastComment: Option<LastComment>, commentsText: string)

  // ---------------------------------------------------------------------------
  // Splitting the filter text (Pattern "\s+", splitAsStream)

  /** The characters the regular expression class `\s` matches. */
  predicate IsWhitespace(c: char) {
    c == ' ' || c == '\t' || c == '\n' || c == '\U{B}' || c == '\U{C}' || c == '\r'
  }

  predicate NoWhitespace(s: string) {
    forall i :: 0 <= i < |s| ==> !IsWhitespace(s[i])
  }

  /** The run of non-whitespace characters at the start of `s`. */
  function TakeWord(s: string): (w: string)
    ensures w <= s && NoWhitespace(w)
    ensures |s| > 0 && !IsWhitespace(s[0]) ==> |w| > 0
    ensures |w| < |s| ==> IsWhitespace(s[|w|])
  {
    if |s| == 0 || IsWhitespace(s[0]) then [] else [s[0]] + TakeWord(s[1..])
  }

  /** The maximal runs of non-whitespace characters, left to right. */
  function Words(s: string): (ws: seq<string>)
    decreases |s|
  {
    if |s| == 0 then []
    else if IsWhitespace(s[0]) then Words(s[1..])
    else
      var w := TakeWord(s);
      [w] + Words(s[|w|..])
  }

  /** The tokens `splitAsStream` produces: the words, preceded by one empty string
      when the text starts with whitespace and some word follows (a leading match of
      positive width yields an empty leading piece; trailing empty pieces are dropped). */
  function Tokens(filter: string): (r: seq<string>)
    ensures |r| == 0 <==> |Words(filter)| == 0
    ensures forall i :: 0 <= i < |r| ==> NoWhitespace(r[i])
    ensures forall i :: 0 < i < |r| ==> |r[i]| > 0
  {
    WordsAreWords(filter);
    (if |filter| > 0 && IsWhitespace(filter[0]) && |Words(filter)| > 0 then [""] else []) + Words(filter)
  }

  /** Every word is a non-empty run without whitespace. */
  lemma {:induction false} WordsAreWords(s: string)
    ensures forall i :: 0 <= i < |Words(s)| ==> |Words(s)[i]| > 0 && NoWhitespace(Words(s)[i])
    decreases |s|
  {
    if |s| > 0 {
      if IsWhitespace(s[0]) {
        WordsAreWords(s[1..]);
      } else {
        WordsAreWords(s[|TakeWord(s)|..]);
      }
    }
  }

  /** A whitespace character ends the word before it. */
  lemma {:induction false} TakeWordStopsAtWhitespace(a: string, c: char, b: string)
    requires IsWhitespace(c)
    ensures TakeWord(a + [c] + b) == TakeWord(a)
  {
    if |a| > 0 && !IsWhitespace(a[0]) {
      assert (a + [c] + b)[1..] == a[1..] + [c] + b;
      TakeWordStopsAtWhitespace(a[1..], c, b);
    }
  }

  /** Joining two texts with whitespace joins their word lists. */
  lemma {:induction false} WordsOfJoin(a: string, c: char, b: string)
    requires IsWhitespace(c)
    ensures Words(a + [c] + b) == Words(a) + Words(b)
    decreases |a|
  {
    var x := a + [c] + b;
    if |a| == 0 {
      assert x == [c] + b;
      assert x[1..] == b;
    } else if IsWhitespace(a[0]) {
      assert x[1..] == a[1..] + [c] + b;
      WordsOfJoin(a[1..], c, b);
    } else {
      TakeWordStopsAtWhitespace(a, c, b);
      var w := TakeWord(a);
      assert x[|w|..] == a[|w|..] + [c] + b;
      WordsOfJoin(a[|w|..], c, b);
    }
  }

  // ---------------------------------------------------------------------------
  // matchesNote

  /** What one token demands of a note. */
  predicate TokenMatches(token: string, note: Note): (r: bool)
    ensures token == "" ==> r
  {
    ContainsEmpty(note.commentsText);
    if token == "open" then note.state == Open
    else if token == "closed" then note.state == Closed
    else if token == "reopened" then note.lastComment.Some? && note.lastComment.value.action == Reopened
    else if token == "new" then note.id < 0
    else if token == "modified" then note.lastComment.Some? && note.lastComment.value.isNew
    else Contains(note.commentsText, token)
  }

  /** `matchesNote(filter, note)`: an empty filter matches everything, otherwise every
      token must match. */
  predicate MatchesNote(filter: string, note: Note): (r: bool)
    ensures |Words(filter)| == 0 ==> r
  {
    |filter| == 0 || forall i :: 0 <= i < |Tokens(filter)| ==> TokenMatches(Tokens(filter)[i], note)
  }

  predicate AllWordsMatch(filter: string, note: Note) {
    forall i :: 0 <= i < |Words(filter)| ==> TokenMatches(Words(filter)[i], note)
  }

  /** The empty leading token matches every note, so a filter matches exactly when
      every word of it does. */
  lemma MatchesIffAllWords(filter: string, note: Note)
    ensures MatchesNote(filter, note) <==> AllWordsMatch(filter, note)
  {
    var ws := Words(filter);
    if |filter| > 0 && IsWhitespace(filter[0]) && |ws| > 0 {
      assert Tokens(filter) == [""] + ws;
      forall i | 0 <= i < |ws|
        ensures TokenMatches(ws[i], note) <==> TokenMatches(Tokens(filter)[i + 1], note)
      {
        assert Tokens(filter)[i + 1] == ws[i];
      }
    } else {
      assert Tokens(filter) == ws;
    }
  }

  /** An empty filter, or one of only whitespace, matches every note. */
  lemma BlankFilterMatchesAll(filter: string, note: Note)
    requires forall i :: 0 <= i < |filter| ==> IsWhitespace(filter[i])
    ensures MatchesNote(filter, note)
  {
    BlankHasNoWords(filter);
    MatchesIffAllWords(filter, note);
  }

  lemma {:induction false} BlankHasNoWords(s: string)
    requires forall i :: 0 <= i < |s| ==> IsWhitespace(s[i])
    ensures Words(s) == []
    decreases |s|
  {
    if |s| > 0 {
      BlankHasNoWords(s[1..]);
    }
  }

  /** Tokens are a conjunction: a filter made of two parts joined by whitespace matches
      exactly the notes both parts match, so adding tokens only narrows the matches. */
  lemma FilterConjunction(a: string, c: char, b: string, note: Note)
    requires IsWhitespace(c)
    ensures MatchesNote(a + [c] + b, note) <==> MatchesNote(a, note) && MatchesNote(b, note)
  {
    WordsOfJoin(a, c, b);
    MatchesIffAllWords(a + [c] + b, note);
    MatchesIffAllWords(a, note);
    MatchesIffAllWords(b, note);
    var wa, wb := Words(a), Words(b);
    assert Words(a + [c] + b) == wa + wb;
    if AllWordsMatch(a, note) && AllWordsMatch(b, note) {
      forall i | 0 <= i < |wa + wb| ensures TokenMatches((wa + wb)[i], note) {
        if i < |wa| {
          assert (wa + wb)[i] == wa[i];
        } else {
          assert (wa + wb)[i] == wb[i - |wa|];
        }
      }
    }
    if AllWordsMatch(a + [c] + b, note) {
      forall i | 0 <= i < |wa| ensures TokenMatches(wa[i], note) {
        assert (wa + wb)[i] == wa[i];
      }
      forall i | 0 <= i < |wb| ensures TokenMatches(wb[i], note) {
        assert (wa + wb)[|wa| + i] == wb[i];
      }
    }
  }

  /** The keywords test the note's fields. */
  lemma OpenKeyword(note: Note)
    ensures MatchesNote("open", note) <==> note.state == Open
  {
    SingleWord("open", note);
  }

  lemma ClosedKeyword(note: Note)
    ensures MatchesNote("closed", note) <==> note.state == Closed
  {
    SingleWord("closed", note);
  }

  lemma ReopenedKeyword(note: Note)
    ensures MatchesNote("reopened", note) <==> note.lastComment.Some? && note.lastComment.value.action == Reopened
  {
    SingleWord("reopened", note);
  }

  lemma NewKeyword(note: Note)
    ensures MatchesNote("new", note) <==> note.id < 0
  {
    SingleWord("new", note);
  }

  lemma ModifiedKeyword(note: Note)
    ensures MatchesNote("modified", note) <==> note.lastComment.Some? && note.lastComment.value.isNew
  {
    SingleWord("modified", note);
  }

  /** A filter that is one word matches as that word's token does; a word that is no
      keyword searches the comment text. */
  lemma SingleWord(w: string, note: Note)
    requires |w| > 0 && NoWhitespace(w)
    ensures MatchesNote(w, note) <==> TokenMatches(w, note)
  {
    WordOfItself(w);
    MatchesIffAllWords(w, note);
    assert Words(w)[0] == w;
  }

  lemma {:induction false} WordOfItself(w: string)
    requires |w| > 0 && NoWhitespace(w)
    ensures TakeWord(w) == w && Words(w) == [w]
  {
    TakeWholeWord(w);
    assert w[|w|..] == [];
  }

  lemma {:induction false} TakeWholeWord(w: string)
    requires NoWhitespace(w)
    ensures TakeWord(w) == w
  {
    if |w| > 0 {
      TakeWholeWord(w[1..]);
    }
  }

  // ---------------------------------------------------------------------------
  // The filtered list model

  /** The notes of `data` that satisfy `p`, in their order. */
  function FilterNotes(data: seq<Note>, p: Note -> bool): (r: seq<Note>)
    ensures |r| <= |data|
    decreases |data|
  {
    if |data| == 0 then []
    else (if p(data[0]) then [data[0]] else []) + FilterNotes(data[1..], p)
  }

  /** `filteredData` for a given filter: all of `data` when there is no predicate. */
  function Filtered(data: seq<Note>, filter: Option<Note -> bool>): seq<Note> {
    match filter
    case None => data
    case Some(p) => FilterNotes(data, p)
  }

  /** The filtered list holds exactly the satisfying notes of the data. */
  lemma {:induction false} FilterNotesMembers(data: seq<Note>, p: Note -> bool)
    ensures forall n :: n in FilterNotes(data, p) <==> n in data && p(n)
    decreases |data|
  {
    if |data| > 0 {
      FilterNotesMembers(data[1..], p);
      assert data == [data[0]] + data[1..];
    }
  }

  /** Filtering works piecewise, so the filtered list keeps the data's order. */
  lemma {:induction false} FilterNotesAppend(a: seq<Note>, b: seq<Note>, p: Note -> bool)
    ensures FilterNotes(a + b, p) == FilterNotes(a, p) + FilterNotes(b, p)
    decreases |a|
  {
    if |a| > 0 {
      assert (a + b)[1..] == a[1..] + b;
      FilterNotesAppend(a[1..], b, p);
    } else {
      assert a + b == b;
    }
  }

  /** Filtering by a two-part filter is filtering by one part, then by the other. */
  lemma {:induction false} FilterByJoinedText(data: seq<Note>, a: string, c: char, b: string)
    requires IsWhitespace(c)
    ensures FilterNotes(data, n => MatchesNote(a + [c] + b, n)) ==
            FilterNotes(FilterNotes(data, n => MatchesNote(a, n)), n => MatchesNote(b, n))
    decreases |data|
  {
    if |data| > 0 {
      FilterConjunction(a, c, b, data[0]);
      FilterByJoinedText(data[1..], a, c, b);
      var pa := (n: Note) => MatchesNote(a, n);
      var pb := (n: Note) => MatchesNote(b, n);
      FilterNotesAppend(if pa(data[0]) then [data[0]] else [], FilterNotes(data[1..], pa), pb);
    }
  }

  /** A blank filter text shows all notes. */
  lemma {:induction false} BlankFilterShowsAll(data: seq<Note>, filter: string)
    requires forall i :: 0 <= i < |filter| ==> IsWhitespace(filter[i])
    ensures FilterNotes(data, n => MatchesNote(filter, n)) == data
    decreases |data|
  {
    if |data| > 0 {
      BlankFilterMatchesAll(filter, data[0]);
      BlankFilterShowsAll(data[1..], filter);
      assert data == [data[0]] + data[1..];
    }
  }

  /** The panel title `setFilter` sets: "Notes" with no data, else "Notes: shown/total". */
  datatype Title = NotesTitle | NotesCount(shown: nat, total: nat)

  class NoteTableModel {
    var data: seq<Note>
    var filteredData: seq<Note>
    var filter: Option<Note -> bool>
    var title: Title

    predicate Valid()
      reads this
    {
      filteredData == Filtered(data, filter)
    }

    constructor()
      ensures data == [] && filteredData == [] && filter.None? && Valid()
    {
      data := [];
      filteredData := [];
      filter := None;
      title := NotesTitle;
    }

    /** `getSize`. */
    function GetSize(): (n: nat)
      reads this
      ensures Valid() ==> n <= |data|
    {
      |filteredData|
    }

    /** `getElementAt(index)`. */
    function GetElementAt(index: nat): (n: Note)
      requires index < |filteredData|
      reads this
      ensures Valid() ==> n in data
    {
      if Valid() && filter.Some? then FilterNotesMembers(data, filter.value); filteredData[index]
      else filteredData[index]
    }

    /** `setFilter`: rebuilds the filtered list from the data and sets the title. */
    method SetFilter(filter: Option<Note -> bool>)
      modifies this
      ensures Valid() && this.filter == filter && data == old(data)
      ensures title == (if |data| == 0 then NotesTitle else NotesCount(|filteredData|, |data|))
    {
      this.filter := filter;
      filteredData := [];
      match filter {
        case None =>
          filteredData := data;
        case Some(p) =>
          var kept: seq<Note> := [];
          var i := 0;
          while i < |data|
            invariant 0 <= i <= |data|
            invariant kept == FilterNotes(data[..i], p)
            invariant data == old(data) && this.filter == filter
          {
            FilterNotesAppend(data[..i], [data[i]], p);
            assert data[..i + 1] == data[..i] + [data[i]];
            if p(data[i]) {
              kept := kept + [data[i]];
            }
            i := i + 1;
          }
          assert data[..i] == data;
          filteredData := kept;
      }
      title := if |data| == 0 then NotesTitle else NotesCount(|filteredData|, |data|);
    }

    /** `setData`: the new notes with the current filter reapplied. */
    method SetData(noteList: seq<Note>)
      modifies this
      ensures Valid() && data == noteList && filter == old(filter)
      ensures title == (if |noteList| == 0 then NotesTitle else NotesCount(|filteredData|, |noteList|))
    {
      data := noteList;
      SetFilter(filter);
    }

    /** `clearData`: no notes and an empty filtered list. */
    method ClearData()
      modifies this
      ensures Valid() && data == [] && filteredData == [] && filter == old(filter)
      ensures title == NotesTitle
    {
      data := [];
      SetFilter(filter);
    }
  }

  // ---------------------------------------------------------------------------
  // updateButtonStates

  /** The note layer's data as the buttons see it. */
  datatype NoteData = NoteData(selected: Option<Note>, modified: bool, notes: seq<Note>)

  datatype Buttons = Buttons(close: bool, comment: bool, reopen: bool, openInBrowser: bool,
                             upload: bool, sort: bool)

  /** Which actions the panel enables for the current note data (none when no note layer). */
  function ButtonStates(noteData: Option<NoteData>): (b: Buttons)
    ensures noteData.None? || noteData.value.selected.None? ==> !b.close && !b.comment && !b.reopen
    ensures noteData.Some? && noteData.value.selected.Some? && noteData.value.selected.value.state == Open ==>
      b.close && b.comment && !b.reopen
    ensures noteData.Some? && noteData.value.selected.Some? && noteData.value.selected.value.state != Open ==>
      !b.close && !b.comment && b.reopen
    ensures b.openInBrowser <==> noteData.Some? && noteData.value.selected.Some? && noteData.value.selected.value.id > 0
    ensures b.upload <==> noteData.Some? && noteData.value.modified
    ensures b.sort <==> noteData.Some? && |noteData.value.notes| > 0
  {
    var selected := if noteData.Some? then noteData.value.selected else None;
    var (close, comment, reopen) :=
      if selected.None? then (false, false, false)
      else if selected.value.state == Open then (true, true, false)
      else (false, false, true);
    Buttons(close, comment, reopen,
            selected.Some? && selected.value.id > 0,
            noteData.Some? && noteData.value.modified,
            noteData.Some? && |noteData.value.notes| > 0)
  }

  /** Commenting goes with closing; closing and reopening are never offered together, and
      one of them is offered exactly when a note is selected. */
  lemma ButtonsConsistent(noteData: Option<NoteData>)
    ensures var b := ButtonStates(noteData);
      b.comment == b.close && !(b.close && b.reopen) &&
      (b.close || b.reopen <==> noteData.Some? && noteData.value.selected.Some?)
  {
  }

  /** The enabled flags of the panel's actions. */
  class NoteButtons {
    var enabled: Buttons

    constructor()
      ensures enabled == ButtonStates(None)
    {
      enabled := ButtonStates(None);
    }

    /** `updateButtonStates`. */
    method UpdateButtonStates(noteData: Option<NoteData>)
      modifies this
      ensures enabled == ButtonStates(noteData)
    {
      var selected := if noteData.Some? then noteData.value.selected else None;
      if selected.None? {
        enabled := enabled.(close := false, comment := false, reopen := false);
      } else if selected.value.state == Open {
        enabled := enabled.(close := true, comment := true, reopen := false);
      } else {
        enabled := enabled.(close := false, comment := false, reopen := true);
      }
      enabled := enabled.(openInBrowser := selected.Some? && selected.value.id > 0);
      enabled := enabled.(upload := noteData.Some? && noteData.value.modified);
      enabled := enabled.(sort := noteData.Some? && |noteData.value.notes| > 0);
    }
  }
}
