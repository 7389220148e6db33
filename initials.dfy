/**
 * Avatar initials: `getInitials` of the profile menu
 * (src/components/user-profile.tsx) and the avatar text of the settings page
 * (src/app/settings/page.tsx), both built from `split(" ")`, first
 * characters, `join("")`, `toUpperCase()` and `substring(0, 2)`.
 */
module Initials {
  import opened Wrappers

  /** `s.split(" ")`: the pieces between single spaces, empty pieces included. */
  function Split(s: string): (parts: seq<string>)
    ensures |parts| >= 1
    ensures forall i :: 0 <= i < |parts| ==> ' ' !in parts[i]
  {
    if s == [] then [[]]
    else
      var rest := Split(s[1..]);
      if s[0] == ' ' then [[]] + rest else [[s[0]] + rest[0]] + rest[1..]
  }

  /** `parts.join(" ")`. */
  function Join(parts: seq<string>): (s: string)
    requires |parts| >= 1
  {
    if |parts| == 1 then parts[0] else parts[0] + " " + Join(parts[1..])
  }

  /** Splitting on spaces loses nothing: joining the pieces with spaces gives the string back. */
  lemma {:induction false} JoinSplit(s: string)
    ensures Join(Split(s)) == s
  {
    if s != [] {
      var rest := Split(s[1..]);
      JoinSplit(s[1..]);
      if s[0] == ' ' {
        assert Split(s)[1..] == rest;
      } else {
        if |rest| == 1 {
        } else {
          assert Split(s)[1..] == rest[1..];
          assert Join(rest) == rest[0] + " " + Join(rest[1..]);
        }
      }
      assert s == [s[0]] + s[1..];
    }
  }

  /**
   * `.map((part) => part[0]).join("")`: the first character of each piece; an
   * empty piece gives `undefined`, which `join` renders as nothing.
   */
  function FirstLetters(parts: seq<string>): (letters: string)
    ensures |letters| <= |parts|
  {
    if parts == [] then []
    else (if parts[0] == [] then [] else [parts[0][0]]) + FirstLetters(parts[1..])
  }

  /** The first letters of two runs of pieces are those of each run, one after the other. */
  lemma {:induction false} FirstLettersConcat(a: seq<string>, b: seq<string>)
    ensures FirstLetters(a + b) == FirstLetters(a) + FirstLetters(b)
  {
    if a != [] {
      assert (a + b)[0] == a[0] && (a + b)[1..] == a[1..] + b;
      FirstLettersConcat(a[1..], b);
    } else {
      assert a + b == b;
    }
  }

  /** An empty piece (from two spaces in a row) contributes nothing: `undefined` joins as "". */
  lemma FirstLettersSkipEmpty(a: seq<string>, b: seq<string>)
    ensures FirstLetters(a + [[]] + b) == FirstLetters(a) + FirstLetters(b)
  {
    var empty: seq<string> := [[]];
    assert empty[1..] == [];
    assert FirstLetters(empty) == [];
    calc {
      FirstLetters(a + empty + b);
      { FirstLettersConcat(a + empty, b); }
      FirstLetters(a + empty) + FirstLetters(b);
      { FirstLettersConcat(a, empty); }
      FirstLetters(a) + [] + FirstLetters(b);
    }
    assert FirstLetters(a) + [] == FirstLetters(a);
  }

  /**
   * An independent reading of the same thing: the characters that are not a
   * space and follow a space (or, when `afterSpace`, the start of the string).
   */
  function WordStarts(s: string, afterSpace: bool): (letters: string)
    ensures |letters| <= |s|
    ensures forall i :: 0 <= i < |letters| ==> letters[i] != ' '
  {
    if s == [] then []
    else (if afterSpace && s[0] != ' ' then [s[0]] else []) + WordStarts(s[1..], s[0] == ' ')
  }

  /** The first letters of the pieces are exactly the word starts, in order. */
  lemma {:induction false} FirstLettersAreWordStarts(s: string)
    ensures FirstLetters(Split(s)) == WordStarts(s, true)
    ensures FirstLetters(Split(s)[1..]) == WordStarts(s, false)
  {
    if s != [] {
      var rest := Split(s[1..]);
      FirstLettersAreWordStarts(s[1..]);
      if s[0] == ' ' {
        assert Split(s)[1..] == rest;
      } else {
        assert Split(s)[1..] == rest[1..];
      }
    }
  }

  /** `toUpperCase()` on one character, for the ASCII letters. */
  function Upper(c: char): (u: char)
    ensures 'a' <= c <= 'z' ==> u as int == c as int - 32
    ensures !('a' <= c <= 'z') ==> u == c
  {
    if 'a' <= c <= 'z' then (c as int - 32) as char else c
  }

  function UpperAll(s: string): (u: string)
    ensures |u| == |s|
    ensures forall i :: 0 <= i < |s| ==> u[i] == Upper(s[i])
  {
    seq(|s|, i requires 0 <= i < |s| => Upper(s[i]))
  }

  /** `substring(0, 2)`. */
  function Take2(s: string): (t: string)
    ensures |t| == if |s| < 2 then |s| else 2
    ensures t == s[..|t|]
  {
    if |s| <= 2 then s else s[..2]
  }

  /** `getInitials`: "U" for an empty name, else the first two uppercased word starts. */
  function GetInitials(name: string): (initials: string)
    ensures |initials| <= 2
    ensures name == "" ==> initials == "U"
    ensures name != "" ==> initials == Take2(UpperAll(WordStarts(name, true)))
  {
    if name == "" then "U"
    else
      FirstLettersAreWordStarts(name);
      Take2(UpperAll(FirstLetters(Split(name))))
  }

  /** Worked examples: doubled spaces add nothing. */
  lemma GetInitialsSkipsEmptyPieces()
    ensures GetInitials("ada  lovelace") == "AL"
  {
    assert "ada  lovelace" == "ada" + (" " + (" " + ("lovelace" + "")));
    WordThen("ada", " " + (" " + ("lovelace" + "")), true);
    SpaceThen(" " + ("lovelace" + ""), false);
    SpaceThen("lovelace" + "", true);
    WordThen("lovelace", "", true);
    assert UpperAll("al") == "AL";
  }

  /** Only the first two words count: whatever follows them does not change the initials. */
  lemma TwoWordsGiveInitials(first: string, second: string, rest: string)
    requires first != [] && second != [] && ' ' !in first && ' ' !in second
    ensures GetInitials(first + " " + second + rest) == [Upper(first[0]), Upper(second[0])]
  {
    var name := first + " " + second + rest;
    assert name == first + (" " + (second + rest));
    WordThen(first, " " + (second + rest), true);
    SpaceThen(second + rest, false);
    WordThen(second, rest, true);
    var starts := WordStarts(name, true);
    assert starts == [first[0]] + ([second[0]] + WordStarts(rest, false));
    var upper := UpperAll(starts);
    assert Take2(upper) == [upper[0], upper[1]];
  }

  lemma GetInitialsTakesTwo()
    ensures GetInitials("grace brewster hopper") == "GB"
  {
    assert "grace brewster hopper" == "grace" + " " + "brewster" + " hopper";
    TwoWordsGiveInitials("grace", "brewster", " hopper");
  }

  /** A name of spaces only is not empty, so it gives no initials at all rather than "U". */
  lemma GetInitialsOfSpaces()
    ensures GetInitials("   ") == ""
  {
    assert "   " == " " + (" " + (" " + ""));
    SpaceThen(" " + (" " + ""), true);
    SpaceThen(" " + "", true);
    SpaceThen("", true);
  }

  lemma WordThen(w: string, rest: string, afterSpace: bool)
    requires w != [] && ' ' !in w
    ensures WordStarts(w + rest, afterSpace) == (if afterSpace then [w[0]] else []) + WordStarts(rest, false)
  {
    assert (w + rest)[0] == w[0] && (w + rest)[1..] == w[1..] + rest;
    WordStartsSkipWord(w[1..], rest);
  }

  lemma SpaceThen(rest: string, afterSpace: bool)
    ensures WordStarts(" " + rest, afterSpace) == WordStarts(rest, true)
  {
    assert (" " + rest)[1..] == rest;
  }

  lemma {:induction false} WordStartsSkipWord(w: string, rest: string)
    requires ' ' !in w
    ensures WordStarts(w + rest, false) == WordStarts(rest, false)
  {
    if w != [] {
      var ws := w + rest;
      assert ws[0] == w[0] && w[0] in w;
      assert ws[1..] == w[1..] + rest;
      assert WordStarts(ws, false) == [] + WordStarts(ws[1..], false);
      assert ' ' !in w[1..] by {
        assert forall x :: x in w[1..] ==> x in w;
      }
      WordStartsSkipWord(w[1..], rest);
    } else {
      assert w + rest == rest;
    }
  }

  /** The profile menu's fallback chain: the profile name, else the email, else "" (and so "U"). */
  function ProfileInitials(profileName: Option<string>, email: Option<string>): (initials: string)
    ensures Truthy(profileName) ==> initials == GetInitials(profileName.value)
    ensures !Truthy(profileName) && Truthy(email) ==> initials == GetInitials(email.value)
    ensures !Truthy(profileName) && !Truthy(email) ==> initials == "U"
  {
    GetInitials(if Truthy(profileName) then profileName.value else if Truthy(email) then email.value else "")
  }

  /**
   * The settings page's avatar text: the first two uppercased word starts of
   * the form's name, or, when that is empty, the first two characters of the
   * signed-in account's email, uppercased. It never shows "U". `None` is the
   * TypeError the source throws when it falls back to an undefined email.
   */
  function AvatarText(name: string, accountEmail: Option<string>): (text: Option<string>)
    ensures text.Some? ==> |text.value| <= 2
    ensures text == Some("") <==> WordStarts(name, true) == [] && accountEmail == Some("")
    ensures text.None? <==> WordStarts(name, true) == [] && accountEmail.None?
    ensures WordStarts(name, true) != [] ==> text == Some(Take2(UpperAll(WordStarts(name, true))))
    ensures WordStarts(name, true) == [] && accountEmail.Some? ==> text == Some(UpperAll(Take2(accountEmail.value)))
  {
    FirstLettersAreWordStarts(name);
    var fromName := Take2(UpperAll(FirstLetters(Split(name))));
    if fromName != "" then Some(fromName)
    else if accountEmail.Some? then Some(UpperAll(Take2(accountEmail.value)))
    else None
  }

  /** Whenever the name has a word, the settings avatar and the profile menu show the same initials. */
  lemma AvatarMatchesMenu(name: string, accountEmail: Option<string>)
    requires WordStarts(name, true) != []
    ensures AvatarText(name, accountEmail) == Some(GetInitials(name))
  {
    FirstLettersAreWordStarts(name);
  }
}
