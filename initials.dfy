/**
 * The avatar fallback of a team card: `name.split(" ").map(n => n[0]).join("")`.
 *
 * `Split` and `Join` follow String.prototype.split with a one-character
 * separator and Array.prototype.join; `Lead` is `n[0]` as `join` renders it
 * (the empty piece gives `undefined`, which `join` writes as nothing).
 * `WordStarts` is an independent description of the result: the non-space
 * characters that open the name or follow a space.
 */
module Avatar {
  import opened Base

  /** `s.split(sep)` for a one-character separator: the text between consecutive separators. */
  function Split(s: string, sep: char): (pieces: seq<string>)
    ensures |pieces| == Count(s, sep) + 1
    ensures forall i :: 0 <= i < |pieces| ==> sep !in pieces[i]
  {
    if s == [] then [""]
    else
      var rest := Split(s[1..], sep);
      if s[0] == sep then [""] + rest
      else [[s[0]] + rest[0]] + rest[1..]
  }

  /** `pieces.join(sep)`: the pieces with `sep` between neighbours. */
  function Join(pieces: seq<string>, sep: string): string {
    if pieces == [] then ""
    else if |pieces| == 1 then pieces[0]
    else pieces[0] + sep + Join(pieces[1..], sep)
  }

  /** Joining the pieces of a split with the same separator gives back the string. */
  lemma {:induction false} JoinSplit(s: string, sep: char)
    ensures Join(Split(s, sep), [sep]) == s
  {
    if s != [] {
      var rest := Split(s[1..], sep);
      JoinSplit(s[1..], sep);
      if s[0] == sep {
        assert Split(s, sep)[1..] == rest;
      } else if |rest| > 1 {
        assert Split(s, sep)[1..] == rest[1..];
        assert Join(rest, [sep]) == rest[0] + [sep] + Join(rest[1..], [sep]);
      }
    }
  }

  /** A non-empty sequence is its head followed by its tail. */
  lemma HeadTail<T>(r: seq<T>)
    requires |r| > 0
    ensures [r[0]] + r[1..] == r
  {
  }

  /** Appending to a non-empty sequence keeps its head in front. */
  lemma ConsAppend<T>(x: seq<T>, y: seq<T>)
    requires |x| > 0
    ensures x + y == [x[0]] + (x[1..] + y)
  {
  }

  /** A character other than the separator extends the first piece. */
  lemma SplitCons(c: char, t: string, sep: char)
    requires c != sep
    ensures Split([c] + t, sep) == [[c] + Split(t, sep)[0]] + Split(t, sep)[1..]
  {
    assert ([c] + t)[1..] == t;
  }

  /** Splitting text that starts with a separator-free prefix extends the first piece by that prefix. */
  lemma {:induction false} SplitPrefix(p: string, t: string, sep: char)
    requires sep !in p
    ensures Split(p + t, sep) == [p + Split(t, sep)[0]] + Split(t, sep)[1..]
  {
    var r := Split(t, sep);
    if p == [] {
      assert p + t == t;
      assert p + r[0] == r[0];
      HeadTail(r);
    } else {
      SplitPrefix(p[1..], t, sep);
      ConsAppend(p, t);
      SplitCons(p[0], p[1..] + t, sep);
      ConsAppend(p, r[0]);
    }
  }

  /** Splitting a join of separator-free pieces gives back the pieces. */
  lemma {:induction false} SplitJoin(pieces: seq<string>, sep: char)
    requires |pieces| > 0
    requires forall i :: 0 <= i < |pieces| ==> sep !in pieces[i]
    ensures Split(Join(pieces, [sep]), sep) == pieces
  {
    if |pieces| == 1 {
      SplitPrefix(pieces[0], "", sep);
      assert pieces[0] + "" == pieces[0];
    } else {
      var tail := Join(pieces[1..], [sep]);
      SplitJoin(pieces[1..], sep);
      assert pieces[0] + [sep] + tail == pieces[0] + ([sep] + tail);
      SplitPrefix(pieces[0], [sep] + tail, sep);
      assert ([sep] + tail)[1..] == tail;
      assert Split([sep] + tail, sep) == [""] + pieces[1..];
      assert pieces[0] + "" == pieces[0];
    }
  }

  /** `n[0]` as `join` renders it: the first character, or nothing for the empty piece. */
  function Lead(piece: string): (r: string)
    ensures r <= piece
    ensures |r| == if piece == [] then 0 else 1
  {
    if piece == [] then [] else [piece[0]]
  }

  /** `pieces.map(n => n[0])`. */
  function Leads(pieces: seq<string>): (r: seq<string>)
    ensures |r| == |pieces|
    ensures forall i :: 0 <= i < |pieces| ==> r[i] == Lead(pieces[i])
  {
    seq(|pieces|, i requires 0 <= i < |pieces| => Lead(pieces[i]))
  }

  /** The avatar fallback text of a name. */
  function Initials(name: string): string {
    Join(Leads(Split(name, ' ')), "")
  }

  /** The non-space characters of `s` that open it (when `atStart`) or follow a space, in order. */
  function WordStarts(s: string, atStart: bool): string {
    if s == [] then []
    else (if atStart && s[0] != ' ' then [s[0]] else []) + WordStarts(s[1..], s[0] == ' ')
  }

  /** Joining with the empty separator is concatenation. */
  lemma JoinEmpty(ss: seq<string>)
    requires |ss| > 0
    ensures Join(ss, "") == ss[0] + Join(ss[1..], "")
  {
    if |ss| == 1 {
      assert ss[0] + "" == ss[0];
    }
  }

  /** The map commutes with taking the first piece and dropping it. */
  lemma LeadsCons(pieces: seq<string>)
    requires |pieces| > 0
    ensures Leads(pieces)[0] == Lead(pieces[0])
    ensures Leads(pieces)[1..] == Leads(pieces[1..])
  {
  }

  /** The word starts of `t` are the lead of its first piece (if it opens a word) and the leads of the others. */
  lemma {:induction false} WordStartsOfPieces(t: string, atStart: bool)
    ensures WordStarts(t, atStart)
      == (if atStart then Lead(Split(t, ' ')[0]) else []) + Join(Leads(Split(t, ' ')[1..]), "")
  {
    if t != [] {
      var rest := Split(t[1..], ' ');
      WordStartsOfPieces(t[1..], t[0] == ' ');
      if t[0] == ' ' {
        assert Split(t, ' ')[1..] == rest;
        LeadsCons(rest);
        JoinEmpty(Leads(rest));
      } else {
        assert Split(t, ' ')[1..] == rest[1..];
      }
    }
  }

  /** The avatar fallback is exactly the word starts of the name. */
  lemma InitialsAreWordStarts(name: string)
    ensures Initials(name) == WordStarts(name, true)
  {
    var pieces := Split(name, ' ');
    WordStartsOfPieces(name, true);
    LeadsCons(pieces);
    JoinEmpty(Leads(pieces));
  }

  /** Number of non-empty pieces. */
  function NonEmptyCount(pieces: seq<string>): (n: nat)
    ensures n <= |pieces|
  {
    if pieces == [] then 0 else (if pieces[0] == [] then 0 else 1) + NonEmptyCount(pieces[1..])
  }

  /** Each non-empty piece gives one character; empty pieces give none. */
  lemma {:induction false} LeadsLength(pieces: seq<string>)
    ensures |Join(Leads(pieces), "")| == NonEmptyCount(pieces)
  {
    if pieces != [] {
      LeadsCons(pieces);
      JoinEmpty(Leads(pieces));
      LeadsLength(pieces[1..]);
    }
  }

  /**
   * One character per non-empty piece: leading, trailing and doubled spaces
   * add nothing, so there are never more characters than spaces plus one.
   */
  lemma InitialsLength(name: string)
    ensures |Initials(name)| == NonEmptyCount(Split(name, ' '))
    ensures |Initials(name)| <= Count(name, ' ') + 1
  {
    LeadsLength(Split(name, ' '));
  }

  /** `a` is obtained from `b` by deleting characters. */
  ghost predicate IsSubsequence(a: string, b: string) {
    if a == [] then true
    else if b == [] then false
    else (a[0] == b[0] && IsSubsequence(a[1..], b[1..])) || IsSubsequence(a, b[1..])
  }

  /** Word starts are non-space characters of `s`, in their order in `s`. */
  lemma {:induction false} WordStartsInOrder(s: string, atStart: bool)
    ensures ' ' !in WordStarts(s, atStart)
    ensures IsSubsequence(WordStarts(s, atStart), s)
  {
    if s != [] {
      var rest := WordStarts(s[1..], s[0] == ' ');
      WordStartsInOrder(s[1..], s[0] == ' ');
      if atStart && s[0] != ' ' {
        assert WordStarts(s, atStart) == [s[0]] + rest;
        assert ([s[0]] + rest)[1..] == rest;
      } else {
        assert WordStarts(s, atStart) == rest;
        if rest != [] {
          assert IsSubsequence(rest, s);
        }
      }
    }
  }

  /** Every character of the avatar fallback is a non-space character of the name, in left-to-right order. */
  lemma InitialsFromName(name: string)
    ensures ' ' !in Initials(name)
    ensures IsSubsequence(Initials(name), name)
  {
    InitialsAreWordStarts(name);
    WordStartsInOrder(name, true);
  }

  /** For non-empty pieces the leads are their first characters. */
  lemma {:induction false} LeadsOfWords(words: seq<string>)
    requires forall i :: 0 <= i < |words| ==> words[i] != []
    ensures Join(Leads(words), "") == seq(|words|, i requires 0 <= i < |words| => words[i][0])
  {
    if words != [] {
      LeadsCons(words);
      JoinEmpty(Leads(words));
      LeadsOfWords(words[1..]);
    }
  }

  /** Words joined by single spaces give one initial per word: its first character. */
  lemma InitialsOfWords(words: seq<string>)
    requires |words| > 0
    requires forall i :: 0 <= i < |words| ==> words[i] != [] && ' ' !in words[i]
    ensures Initials(Join(words, " ")) == seq(|words|, i requires 0 <= i < |words| => words[i][0])
  {
    SplitJoin(words, ' ');
    LeadsOfWords(words);
  }

  /**
   * A name without the space character is a single piece: its first
   * character, or nothing for the empty name. Tabs and other whitespace do
   * not separate.
   */
  lemma InitialsWithoutSpace(name: string)
    requires ' ' !in name
    ensures Initials(name) == if name == [] then [] else [name[0]]
  {
    SplitJoin([name], ' ');
    assert Join([name], " ") == name;
  }

  /** A tab does not separate words, and the empty name gives nothing. */
  lemma InitialsExamples()
    ensures Initials("Ada\tLovelace") == "A"
    ensures Initials("") == ""
  {
    InitialsWithoutSpace("Ada\tLovelace");
    InitialsWithoutSpace("");
  }
}
