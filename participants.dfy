/** A participant: an immutable record whose avatar defaults to the
    initials of the name. */
module Participants {
  import opened JsValues

  /** The `{ id, name, email, avatar? }` shape a participant is built from. */
  datatype ParticipantInit = ParticipantInit(id: int, name: string, email: string, avatar: Option<string>)

  /** A constructed participant; it has getters only, so it is a value. */
  datatype Participant = Participant(id: int, name: string, email: string, avatar: string)

  /** `name.split(' ')`: the pieces between single spaces, empty pieces
      included (a string without spaces is one piece). */
  function Split(s: string): (r: seq<string>)
    ensures |r| >= 1
    ensures forall i :: 0 <= i < |r| ==> ' ' !in r[i]
  {
    if s == [] then [[]]
    else
      var rest := Split(s[1..]);
      if s[0] == ' ' then [[]] + rest
      else [[s[0]] + rest[0]] + rest[1..]
  }

  /** `pieces.join(' ')`. */
  function Join(pieces: seq<string>): string
  {
    if pieces == [] then []
    else if |pieces| == 1 then pieces[0]
    else pieces[0] + [' '] + Join(pieces[1..])
  }

  /** `.map(n => n[0]).join('')`: the first character of every piece; an
      empty piece yields `undefined`, which `join` renders as nothing. */
  function FirstChars(pieces: seq<string>): (r: string)
    ensures |r| <= |pieces|
  {
    if pieces == [] then []
    else (if pieces[0] == [] then [] else [pieces[0][0]]) + FirstChars(pieces[1..])
  }

  /** ASCII case mapping of one character. */
  function UpperChar(c: char): char
  {
    if 'a' <= c <= 'z' then (c as int - 32) as char else c
  }

  /** `.toUpperCase()` restricted to ASCII letters: no lower-case letter
      is left, every other character is kept, and a lower-case letter becomes
      the letter 32 code points below it. */
  function Upper(s: string): (r: string)
    ensures |r| == |s|
    ensures forall i :: 0 <= i < |r| ==> !('a' <= r[i] <= 'z')
    ensures forall i :: 0 <= i < |s| && !('a' <= s[i] <= 'z') ==> r[i] == s[i]
    ensures forall i :: 0 <= i < |s| && 'a' <= s[i] <= 'z' ==> 'A' <= r[i] <= 'Z' && r[i] as int == s[i] as int - 32
  {
    seq(|s|, i requires 0 <= i < |s| => UpperChar(s[i]))
  }

  /** Upper-casing twice is upper-casing once. */
  lemma UpperIdempotent(s: string)
    ensures Upper(Upper(s)) == Upper(s)
  {
  }

  /** The derived avatar:
      `name.split(' ').map(n => n[0]).join('').toUpperCase().slice(0, 2)`. */
  function Initials(name: string): (r: string)
    ensures |r| <= 2
    ensures forall i :: 0 <= i < |r| ==> !('a' <= r[i] <= 'z')
  {
    var letters := Upper(FirstChars(Split(name)));
    if |letters| <= 2 then letters else letters[..2]
  }

  /** `new Participant({ id, name, email, avatar })`. */
  function NewParticipant(init: ParticipantInit): (p: Participant)
    ensures p.id == init.id && p.name == init.name && p.email == init.email
    ensures IsTruthyString(init.avatar) ==> p.avatar == init.avatar.value
    ensures !IsTruthyString(init.avatar) ==> p.avatar == Initials(init.name) && |p.avatar| <= 2
  {
    Participant(init.id, init.name, init.email,
      if IsTruthyString(init.avatar) then init.avatar.value else Initials(init.name))
  }

  /** Independent description of the derived letters: the characters that
      are not spaces and stand at the start of the name or right after a
      space. `atStart` says the previous character was a space (or there was
      none). */
  function WordStarts(s: string, atStart: bool): string
  {
    if s == [] then []
    else (if atStart && s[0] != ' ' then [s[0]] else []) + WordStarts(s[1..], s[0] == ' ')
  }

  /** Splitting and re-joining on a single space gives back the name. */
  lemma {:induction false} SplitJoin(s: string)
    ensures Join(Split(s)) == s
  {
    if s != [] {
      SplitJoin(s[1..]);
      var rest := Split(s[1..]);
      if s[0] == ' ' {
        assert Split(s)[1..] == rest;
      } else {
        if |rest| > 1 {
          assert Join(rest) == rest[0] + [' '] + Join(rest[1..]);
          assert Split(s)[1..] == rest[1..];
        }
      }
    }
  }

  /** The first characters of the pieces are exactly the word starts
      (first statement); once inside a word, only the later pieces
      contribute (second statement). */
  lemma {:induction false} FirstCharsAreWordStarts(s: string)
    ensures FirstChars(Split(s)) == WordStarts(s, true)
    ensures FirstChars(Split(s)[1..]) == WordStarts(s, false)
  {
    if s != [] {
      FirstCharsAreWordStarts(s[1..]);
      var rest := Split(s[1..]);
      if s[0] == ' ' {
        assert Split(s)[1..] == rest;
      } else {
        assert Split(s)[1..] == rest[1..];
      }
    }
  }

  /** Runs of spaces count as one: an extra space changes no derived letter. */
  lemma {:induction false} ExtraSpaceIgnored(a: string, b: string, atStart: bool)
    ensures WordStarts(a + [' ', ' '] + b, atStart) == WordStarts(a + [' '] + b, atStart)
  {
    if a == [] {
      assert ([' ', ' '] + b)[1..] == [' '] + b;
      assert ([' '] + b)[1..] == b;
    } else {
      ExtraSpaceIgnored(a[1..], b, a[0] == ' ');
      assert (a + [' ', ' '] + b)[1..] == a[1..] + [' ', ' '] + b;
      assert (a + [' '] + b)[1..] == a[1..] + [' '] + b;
    }
  }

  /** A derived avatar has at most two letters, and they are the first two
      word starts, upper-cased. */
  lemma InitialsAreFirstTwoWordStarts(name: string)
    ensures |Initials(name)| <= 2
    ensures var w := Upper(WordStarts(name, true)); Initials(name) == if |w| <= 2 then w else w[..2]
  {
    FirstCharsAreWordStarts(name);
  }

  /** Doubled spaces in a name do not change the derived avatar. */
  lemma InitialsIgnoreEmptyPieces(a: string, b: string)
    ensures Initials(a + [' ', ' '] + b) == Initials(a + [' '] + b)
  {
    FirstCharsAreWordStarts(a + [' ', ' '] + b);
    FirstCharsAreWordStarts(a + [' '] + b);
    ExtraSpaceIgnored(a, b, true);
  }

  /** A name without spaces is a single piece, itself. */
  lemma {:induction false} SplitWithoutSpaces(s: string)
    requires ' ' !in s
    ensures Split(s) == [s]
  {
    if s != [] {
      assert s[0] in s;
      SplitWithoutSpaces(s[1..]);
      assert [s[0]] + s[1..] == s;
    }
  }

  /** A one-word name yields the upper-cased first letter alone. */
  lemma InitialsOfOneWord(name: string)
    requires name != [] && ' ' !in name
    ensures Initials(name) == [UpperChar(name[0])]
  {
    SplitWithoutSpaces(name);
  }
}
