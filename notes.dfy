/** The note-name parser inside `noteToFreq`: a name such as "G4" or "C#5" is matched
    against one letter A-G, an optional '#' or 'b', and one decimal digit; the pitch part
    is looked up in a table of pitch classes and the digit is the octave.  The model stops
    at the semitone distance from A4 and leaves out `440 * 2^(d/12)`. */
module Notes {

  datatype Option<T> = None | Some(value: T)

  /** What `noteToFreq` yields, before the exponent.  `Silent` is its `return 0` for a
      name the pattern rejects; `Undefined` is the NaN it computes for a name the pattern
      accepts but the table lacks (the lookup gives `undefined`); `Tone(d)` is the
      frequency 440 * 2^(d/12), d semitones away from A4. */
  datatype Pitch = Silent | Undefined | Tone(semitones: int)

  /** The pitch-class table: semitones above C within one octave. */
  const PitchClass: map<string, int> :=
    map["C" := 0, "C#" := 1, "Db" := 1, "D" := 2, "D#" := 3, "Eb" := 3, "E" := 4,
        "F" := 5, "F#" := 6, "Gb" := 6, "G" := 7, "G#" := 8, "Ab" := 8, "A" := 9,
        "A#" := 10, "Bb" := 10, "B" := 11]

  /** The absolute semitone number of A4: pitch class 9 in octave 4. */
  const A4: int := 9 + (4 + 1) * 12

  predicate IsLetter(c: char) { 'A' <= c <= 'G' }
  predicate IsAccidental(c: char) { c == '#' || c == 'b' }
  predicate IsDigit(c: char) { '0' <= c <= '9' }

  /** `parseInt` of one ASCII digit: the digit's position in "0123456789". */
  function DigitValue(c: char): (v: nat)
    requires IsDigit(c)
    ensures v < 10 && "0123456789"[v] == c
  {
    c as int - '0' as int
  }

  /** The two capture groups of a successful match: the pitch and the octave digit. */
  datatype NoteMatch = NoteMatch(pitch: string, octave: char)

  /** `n.match(/^([A-G](?:#|b)?)(\d)$/)`: the pattern is anchored at both ends, so a
      match is the whole string, two or three characters long.  `\d` without the
      unicode flag is the ASCII digits only. */
  function MatchNote(n: string): (m: Option<NoteMatch>)
    ensures m.Some? ==> IsDigit(m.value.octave) && n == m.value.pitch + [m.value.octave]
    ensures m.Some? ==> |m.value.pitch| in {1, 2} && IsLetter(m.value.pitch[0])
    ensures m.Some? && |m.value.pitch| == 2 ==> IsAccidental(m.value.pitch[1])
  {
    if |n| == 2 && IsLetter(n[0]) && IsDigit(n[1]) then
      Some(NoteMatch(n[..1], n[1]))
    else if |n| == 3 && IsLetter(n[0]) && IsAccidental(n[1]) && IsDigit(n[2]) then
      Some(NoteMatch(n[..2], n[2]))
    else
      None
  }

  /** `noteToFreq(n)`, up to the semitone difference `semi - a4`. */
  function NoteToFreq(n: string): (r: Pitch)
    ensures r.Tone? ==> -57 <= r.semitones <= 62
  {
    match MatchNote(n)
    case None => Silent
    case Some(NoteMatch(p, o)) =>
      if p in PitchClass then Tone(PitchClass[p] + (DigitValue(o) + 1) * 12 - A4)
      else Undefined
  }

  /** Every string the pattern accepts, written as the language it describes. */
  ghost const NoteNames: set<string> :=
    set l, a, d | l in "ABCDEFG" && a in ["", "#", "b"] && d in "0123456789" :: [l] + a + [d]

  /** The pitch names the pattern accepts but the table does not know. */
  ghost const MissingPitches: set<string> := {"Cb", "E#", "Fb", "B#"}

  lemma LetterIn(c: char)
    ensures IsLetter(c) <==> c in "ABCDEFG"
  {
    if IsLetter(c) {
      assert c == 'A' || c == 'B' || c == 'C' || c == 'D' || c == 'E' || c == 'F' || c == 'G';
    }
  }

  lemma DigitIn(c: char)
    ensures IsDigit(c) <==> c in "0123456789"
  {
    if IsDigit(c) {
      assert c == '0' || c == '1' || c == '2' || c == '3' || c == '4'
          || c == '5' || c == '6' || c == '7' || c == '8' || c == '9';
    }
  }

  /** The parser accepts exactly the language of the pattern. */
  lemma MatchNoteAccepts(n: string)
    ensures MatchNote(n).Some? <==> n in NoteNames
  {
    if MatchNote(n).Some? {
      var m := MatchNote(n).value;
      LetterIn(m.pitch[0]);
      DigitIn(m.octave);
      var a := m.pitch[1..];
      assert a == "" || a == "#" || a == "b" by {
        if |m.pitch| == 2 { assert a == [m.pitch[1]]; }
      }
      assert n == [m.pitch[0]] + a + [m.octave];
    }
    if n in NoteNames {
      var l, a, d :| l in "ABCDEFG" && a in ["", "#", "b"] && d in "0123456789" && n == [l] + a + [d];
      LetterIn(l);
      DigitIn(d);
    }
  }

  /** `noteToFreq` returns 0 exactly for the strings the pattern rejects. */
  lemma {:induction false} SilentIffNoMatch(n: string)
    ensures NoteToFreq(n) == Silent <==> n !in NoteNames
  {
    MatchNoteAccepts(n);
  }

  /** The NaN case: an accepted name whose pitch part is one of Cb, E#, Fb, B#. */
  lemma {:induction false} UndefinedIffMissingPitch(n: string)
    ensures NoteToFreq(n) == Undefined <==> n in NoteNames && n[..|n| - 1] in MissingPitches
  {
    MatchNoteAccepts(n);
    if MatchNote(n).Some? {
      var p := MatchNote(n).value.pitch;
      assert n[..|n| - 1] == p;
      assert p in PitchClass <==> p !in MissingPitches by {
        if |p| == 1 {
          assert p == [p[0]];
          LetterIn(p[0]);
        } else {
          assert p == [p[0], p[1]];
          LetterIn(p[0]);
        }
      }
    }
  }

  /** A tone can be decoded back into its name: its distance from A4 determines the
      pitch class and the octave digit, and lies between C0 and B9. */
  lemma {:induction false} ToneDecodes(n: string, d: int)
    requires NoteToFreq(n) == Tone(d)
    ensures -57 <= d <= 62
    ensures n[..|n| - 1] in PitchClass && PitchClass[n[..|n| - 1]] == (d + A4) % 12
    ensures DigitValue(n[|n| - 1]) == (d + A4) / 12 - 1
  {
    var m := MatchNote(n).value;
    assert n[..|n| - 1] == m.pitch;
    assert m.pitch in PitchClass;
    PitchClassRange(m.pitch);
  }

  lemma PitchClassRange(p: string)
    requires p in PitchClass
    ensures 0 <= PitchClass[p] < 12
  {
  }

  /** "A4" is concert pitch: zero semitones, 440 Hz. */
  lemma ConcertPitch()
    ensures NoteToFreq("A4") == Tone(0)
  {
    assert "A4"[..1] == "A";
  }

  /** Enharmonic spellings (C#/Db, D#/Eb, F#/Gb, G#/Ab, A#/Bb) give the same result in
      every octave. */
  lemma Enharmonics(o: char)
    requires IsDigit(o)
    ensures NoteToFreq(['C', '#', o]) == NoteToFreq(['D', 'b', o])
    ensures NoteToFreq(['D', '#', o]) == NoteToFreq(['E', 'b', o])
    ensures NoteToFreq(['F', '#', o]) == NoteToFreq(['G', 'b', o])
    ensures NoteToFreq(['G', '#', o]) == NoteToFreq(['A', 'b', o])
    ensures NoteToFreq(['A', '#', o]) == NoteToFreq(['B', 'b', o])
  {
    SharpOrFlat('C', '#', o); SharpOrFlat('D', 'b', o);
    SharpOrFlat('D', '#', o); SharpOrFlat('E', 'b', o);
    SharpOrFlat('F', '#', o); SharpOrFlat('G', 'b', o);
    SharpOrFlat('G', '#', o); SharpOrFlat('A', 'b', o);
    SharpOrFlat('A', '#', o); SharpOrFlat('B', 'b', o);
  }

  /** A three-character name whose pitch is in the table. */
  lemma SharpOrFlat(l: char, a: char, o: char)
    requires IsLetter(l) && IsAccidental(a) && IsDigit(o) && [l, a] in PitchClass
    ensures NoteToFreq([l, a, o]) == Tone(PitchClass[[l, a]] + (DigitValue(o) + 1) * 12 - A4)
  {
    assert [l, a, o][..2] == [l, a];
  }

  /** Raising the octave digit by one raises the tone by twelve semitones. */
  lemma OctaveUp(p: string, o: char, o': char, d: int)
    requires IsDigit(o) && IsDigit(o') && DigitValue(o') == DigitValue(o) + 1
    requires NoteToFreq(p + [o]) == Tone(d)
    ensures NoteToFreq(p + [o']) == Tone(d + 12)
  {
    assert (p + [o])[..|p|] == p == (p + [o'])[..|p|];
  }

  /** The melody `playBirthday` plays: every note of it is a tone. */
  const Melody: seq<string> :=
    ["G4", "G4", "A4", "G4", "C5", "B4",
     "G4", "G4", "A4", "G4", "D5", "C5",
     "G4", "G4", "G5", "E5", "C5", "B4", "A4",
     "F5", "F5", "E5", "C5", "D5", "C5"]

  lemma MelodyIsPlayable()
    ensures forall i | 0 <= i < |Melody| :: NoteToFreq(Melody[i]).Tone?
  {
    forall i | 0 <= i < |Melody|
      ensures NoteToFreq(Melody[i]).Tone?
    {
      NaturalIsTone(Melody[i]);
    }
  }

  /** A letter with no accidental is always in the table. */
  lemma NaturalIsTone(n: string)
    requires |n| == 2 && IsLetter(n[0]) && IsDigit(n[1])
    ensures NoteToFreq(n).Tone?
  {
    assert n[..1] == [n[0]];
    LetterIn(n[0]);
  }
}
