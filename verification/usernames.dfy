/** Username derivation (`createUsernames`): the owner's name is lowercased,
    split on single spaces, and the first character of every word is kept. */
module Usernames {
  import opened Collections

  /** `toLowerCase` on one character (ASCII letters only). */
  function Lower(c: char): char
  {
    if 'A' <= c <= 'Z' then (c as int + 32) as char else c
  }

  function LowerString(s: string): (r: string)
    ensures |r| == |s|
    ensures forall i :: 0 <= i < |s| ==> r[i] == Lower(s[i])
  {
    if |s| == 0 then "" else [Lower(s[0])] + LowerString(s[1..])
  }

  /** Words joined back together with one space between neighbours. */
  function JoinWords(ws: seq<string>): string
  {
    if |ws| == 0 then ""
    else if |ws| == 1 then ws[0]
    else ws[0] + " " + JoinWords(ws[1..])
  }

  ghost predicate SpaceFree(w: string)
  {
    forall i :: 0 <= i < |w| ==> w[i] != ' '
  }

  /** `split(' ')`: the pieces between single spaces, empty pieces included
      (two spaces in a row, or a leading or trailing space, give an empty
      word). There is always at least one piece and none holds a space. */
  function Split(s: string): (r: seq<string>)
    ensures |r| >= 1
    ensures forall i :: 0 <= i < |r| ==> SpaceFree(r[i])
  {
    if |s| == 0 then [""]
    else
      var rest := Split(s[1..]);
      if s[0] == ' ' then [""] + rest
      else [[s[0]] + rest[0]] + rest[1..]
  }

  /** Joining the pieces with spaces gives back the text. */
  lemma {:induction false} JoinSplit(s: string)
    ensures JoinWords(Split(s)) == s
  {
    if |s| > 0 {
      var rest := Split(s[1..]);
      JoinSplit(s[1..]);
      assert s == [s[0]] + s[1..];
      if s[0] == ' ' {
        assert JoinWords([""] + rest) == "" + " " + JoinWords(rest) by {
          assert ([""] + rest)[1..] == rest;
        }
      } else {
        var first := [s[0]] + rest[0];
        if |rest| == 1 {
          assert [first] + rest[1..] == [first];
        } else {
          assert ([first] + rest[1..])[1..] == rest[1..];
          assert JoinWords(rest) == rest[0] + " " + JoinWords(rest[1..]);
        }
      }
    }
  }

  /** A word without spaces is a single piece. */
  lemma {:induction false} SplitWord(w: string)
    requires SpaceFree(w)
    ensures Split(w) == [w]
  {
    if |w| > 0 {
      SplitWord(w[1..]);
      assert w == [w[0]] + w[1..];
    }
  }

  /** A word, a space and more text split into the word and the pieces of the rest. */
  lemma {:induction false} SplitAfterWord(w: string, t: string)
    requires SpaceFree(w)
    ensures Split(w + " " + t) == [w] + Split(t)
  {
    if |w| == 0 {
      assert w + " " + t == [' '] + t;
      assert (w + " " + t)[1..] == t;
    } else {
      SplitAfterWord(w[1..], t);
      assert (w + " " + t)[1..] == w[1..] + " " + t;
      assert w == [w[0]] + w[1..];
    }
  }

  /** Splitting undoes joining for words free of spaces: `Split` and
      `JoinWords` are inverse to each other. */
  lemma {:induction false} SplitJoin(ws: seq<string>)
    requires |ws| >= 1
    requires forall i :: 0 <= i < |ws| ==> SpaceFree(ws[i])
    ensures Split(JoinWords(ws)) == ws
  {
    if |ws| == 1 {
      SplitWord(ws[0]);
    } else {
      SplitJoin(ws[1..]);
      SplitAfterWord(ws[0], JoinWords(ws[1..]));
      assert ws == [ws[0]] + ws[1..];
    }
  }

  /** The words that hold at least one character. */
  function Words(ws: seq<string>): seq<string>
  {
    Filter(ws, w => |w| > 0)
  }

  /** The first character of a word as it ends up in the username. An empty
      word has no first character, and the resulting `undefined` is
      rendered as nothing when the initials are joined. */
  function FirstOrNothing(w: string): string
  {
    if |w| == 0 then "" else [w[0]]
  }

  /** The first characters of the words, strung together: one character per
      non-empty word, in word order. */
  function Initials(ws: seq<string>): (r: string)
    ensures |r| == |Words(ws)|
    ensures forall i :: 0 <= i < |r| ==> |Words(ws)[i]| > 0 && r[i] == Words(ws)[i][0]
  {
    if |ws| == 0 then ""
    else
      var p, w := ws[..|ws| - 1], ws[|ws| - 1];
      FilterAppend(p, w, v => |v| > 0);
      assert ws == p + [w];
      Initials(p) + FirstOrNothing(w)
  }

  /** The username derived from one owner: the initials of the owner's name,
      lowercased. Lowercasing first, as `createUsernames` does, or last gives
      the same username, one character per non-empty word. */
  function Username(owner: string): (r: string)
    ensures r == LowerString(Initials(Split(owner)))
    ensures |r| == |Words(Split(owner))|
  {
    SplitLower(owner);
    InitialsLowerAll(Split(owner));
    Initials(Split(LowerString(owner)))
  }

  /** Taking initials commutes with lowercasing every word. */
  lemma {:induction false} InitialsLowerAll(ws: seq<string>)
    ensures Initials(LowerAll(ws)) == LowerString(Initials(ws))
  {
    if |ws| > 0 {
      var p, w := ws[..|ws| - 1], ws[|ws| - 1];
      assert ws == p + [w];
      InitialsLowerAll(p);
      LowerAllAppend(p, w);
      assert LowerAll(ws)[..|ws| - 1] == LowerAll(p);
      LowerStringAppend(Initials(p), FirstOrNothing(w));
    }
  }

  lemma LowerStringAppend(a: string, b: string)
    ensures LowerString(a + b) == LowerString(a) + LowerString(b)
  {
    assert forall i :: 0 <= i < |a + b| ==> LowerString(a + b)[i] == (LowerString(a) + LowerString(b))[i];
  }

  /** The username has one character per non-empty word of the owner's name,
      and each is the lowercased first letter of that word. */
  lemma UsernameInitials(owner: string)
    ensures |Username(owner)| == |Words(Split(owner))|
    ensures forall i :: 0 <= i < |Username(owner)| ==>
      Username(owner)[i] == Lower(Words(Split(owner))[i][0])
  {
  }

  /** Lowercasing keeps spaces and non-spaces apart. */
  lemma LowerKeepsSpaces(c: char)
    ensures Lower(c) == ' ' <==> c == ' '
  {
  }

  function LowerAll(ws: seq<string>): (r: seq<string>)
    ensures |r| == |ws|
    ensures forall i :: 0 <= i < |ws| ==> r[i] == LowerString(ws[i])
  {
    seq(|ws|, i requires 0 <= i < |ws| => LowerString(ws[i]))
  }

  /** Lowercasing before splitting is splitting and then lowercasing each piece. */
  lemma {:induction false} SplitLower(s: string)
    ensures Split(LowerString(s)) == LowerAll(Split(s))
  {
    if |s| > 0 {
      SplitLower(s[1..]);
      LowerKeepsSpaces(s[0]);
      var l := LowerString(s);
      assert l[1..] == LowerString(s[1..]);
      var rest := Split(s[1..]);
      if s[0] != ' ' {
        var lr := LowerAll(rest);
        assert Split(l) == [[Lower(s[0])] + lr[0]] + lr[1..];
        assert LowerString([s[0]] + rest[0]) == [Lower(s[0])] + LowerString(rest[0]);
        assert LowerAll([[s[0]] + rest[0]] + rest[1..]) == [LowerString([s[0]] + rest[0])] + LowerAll(rest[1..]);
        assert lr[1..] == LowerAll(rest[1..]);
      } else {
        assert LowerAll([""] + rest) == [""] + LowerAll(rest);
      }
    }
  }

  lemma LowerAllAppend(ws: seq<string>, w: string)
    ensures LowerAll(ws + [w]) == LowerAll(ws) + [LowerString(w)]
  {
  }

  lemma WordsAppend(ws: seq<string>, w: string)
    ensures Words(ws + [w]) == if |w| > 0 then Words(ws) + [w] else Words(ws)
  {
    FilterAppend(ws, w, v => |v| > 0);
  }

  /** Words that are all non-empty are all kept. */
  lemma {:induction false} WordsOfNonEmpty(ws: seq<string>)
    requires forall i :: 0 <= i < |ws| ==> |ws[i]| > 0
    ensures Words(ws) == ws
  {
    if |ws| > 0 {
      var p, w := ws[..|ws| - 1], ws[|ws| - 1];
      assert ws == p + [w];
      WordsOfNonEmpty(p);
      WordsAppend(p, w);
    }
  }

  /** For a name made of non-empty words separated by single spaces, the
      username is the lowercased first letters of the words, one per word. */
  lemma UsernameOfWords(ws: seq<string>)
    requires |ws| >= 1
    requires forall i :: 0 <= i < |ws| ==> |ws[i]| > 0 && SpaceFree(ws[i])
    ensures |Username(JoinWords(ws))| == |ws|
    ensures forall i :: 0 <= i < |ws| ==> Username(JoinWords(ws))[i] == Lower(ws[i][0])
  {
    SplitJoin(ws);
    WordsOfNonEmpty(ws);
    UsernameInitials(JoinWords(ws));
  }
}
