/**
 * The slug the event-creation form fills in when the organizer leaves it
 * empty: the title lower-cased, spaces turned into hyphens, every character
 * other than a word character or a hyphen dropped, then a hyphen and the
 * submission time in milliseconds.
 */
module CreateEventForm {
  import opened Common
  import opened TextMatch

  /** The characters of JavaScript's \w, ASCII only. */
  predicate IsWordChar(c: char)
  {
    IsAsciiLetter(c) || IsDigit(c) || c == '_'
  }

  /** The characters a generated slug is made of. */
  predicate IsSlugChar(c: char)
  {
    IsLower(c) || IsDigit(c) || c == '_' || c == '-'
  }

  /** `.replace(/ /g, '-')`: every space becomes a hyphen, one for one. */
  function ReplaceSpaces(s: string): (r: string)
    ensures |r| == |s|
    ensures forall i :: 0 <= i < |s| ==> r[i] == if s[i] == ' ' then '-' else s[i]
  {
    if s == [] then [] else [if s[0] == ' ' then '-' else s[0]] + ReplaceSpaces(s[1..])
  }

  /** `.replace(/[^\w-]+/g, '')`: every character that is neither a word character nor a hyphen is dropped. */
  function StripNonWord(s: string): (r: string)
    ensures |r| <= |s|
    ensures forall i :: 0 <= i < |r| ==> IsWordChar(r[i]) || r[i] == '-'
  {
    if s == [] then []
    else (if IsWordChar(s[0]) || s[0] == '-' then [s[0]] else []) + StripNonWord(s[1..])
  }

  /** The title part of a generated slug. */
  function SlugBase(title: string): string
  {
    StripNonWord(ReplaceSpaces(LowerAscii(title)))
  }

  /** A slug made up when none was typed: the title part, a hyphen and the clock reading `now`. */
  function GeneratedSlug(title: string, now: nat): string
  {
    SlugBase(title) + "-" + Decimal(now)
  }

  /** What one title character contributes to the slug. */
  function SlugPiece(c: char): string
  {
    if c == ' ' then "-"
    else if IsWordChar(LowerChar(c)) || c == '-' then [LowerChar(c)]
    else []
  }

  lemma ReplaceSpacesConcat(a: string, b: string)
    ensures ReplaceSpaces(a + b) == ReplaceSpaces(a) + ReplaceSpaces(b)
  {
    assert ReplaceSpaces(a + b) == ReplaceSpaces(a) + ReplaceSpaces(b);
  }

  lemma {:induction false} StripNonWordConcat(a: string, b: string)
    ensures StripNonWord(a + b) == StripNonWord(a) + StripNonWord(b)
    decreases |a|
  {
    if a != [] {
      assert (a + b)[1..] == a[1..] + b;
      StripNonWordConcat(a[1..], b);
    } else {
      assert a + b == b;
    }
  }

  /** The slug is built character by character: the title part of a concatenation is the concatenation of the parts. */
  lemma SlugBaseConcat(a: string, b: string)
    ensures SlugBase(a + b) == SlugBase(a) + SlugBase(b)
  {
    LowerAsciiConcat(a, b);
    ReplaceSpacesConcat(LowerAscii(a), LowerAscii(b));
    StripNonWordConcat(ReplaceSpaces(LowerAscii(a)), ReplaceSpaces(LowerAscii(b)));
  }

  /** A single character becomes its piece: a space a hyphen, a word character or hyphen itself (lower-cased), anything else nothing. */
  lemma SlugBaseOfChar(c: char)
    ensures SlugBase([c]) == SlugPiece(c)
  {
    assert LowerAscii([c]) == [LowerChar(c)];
    assert ReplaceSpaces([LowerChar(c)]) == [if LowerChar(c) == ' ' then '-' else LowerChar(c)];
    var r := ReplaceSpaces([LowerChar(c)]);
    assert StripNonWord(r) == (if IsWordChar(r[0]) || r[0] == '-' then [r[0]] else []) + StripNonWord([]);
  }

  /** Every character of the title part is a lower-case letter, a digit, '_' or '-'; in particular none is a space. */
  lemma SlugBaseCharset(title: string)
    ensures forall i :: 0 <= i < |SlugBase(title)| ==> IsSlugChar(SlugBase(title)[i])
  {
    var lowered := LowerAscii(title);
    var replaced := ReplaceSpaces(lowered);
    assert forall i :: 0 <= i < |replaced| ==> !IsUpper(replaced[i]);
    StripNonWordKeepsLower(replaced);
  }

  lemma {:induction false} StripNonWordKeepsLower(s: string)
    requires forall i :: 0 <= i < |s| ==> !IsUpper(s[i])
    ensures forall i :: 0 <= i < |StripNonWord(s)| ==> !IsUpper(StripNonWord(s)[i])
  {
    if s != [] {
      StripNonWordKeepsLower(s[1..]);
    }
  }

  /** Spaces are not collapsed: a run of spaces turns into as many hyphens. */
  lemma SpacesBecomeHyphens(a: string, n: nat, b: string)
    ensures SlugBase(a + Repeat(' ', n) + b) == SlugBase(a) + Repeat('-', n) + SlugBase(b)
  {
    SlugBaseConcat(a + Repeat(' ', n), b);
    SlugBaseConcat(a, Repeat(' ', n));
    SlugBaseOfSpaces(n);
  }

  /** n copies of c. */
  function Repeat(c: char, n: nat): (s: string)
    ensures |s| == n
    ensures forall i :: 0 <= i < n ==> s[i] == c
  {
    if n == 0 then [] else Repeat(c, n - 1) + [c]
  }

  lemma {:induction false} SlugBaseOfSpaces(n: nat)
    ensures SlugBase(Repeat(' ', n)) == Repeat('-', n)
  {
    if n > 0 {
      SlugBaseOfSpaces(n - 1);
      SlugBaseConcat(Repeat(' ', n - 1), " ");
      SlugBaseOfChar(' ');
    } else {
      assert LowerAscii([]) == [];
    }
  }

  /** Text already made of slug characters passes through unchanged: its hyphens, digits and underscores survive in order. */
  lemma {:induction false} SlugBaseKeepsSlugText(title: string)
    requires forall i :: 0 <= i < |title| ==> IsSlugChar(title[i])
    ensures SlugBase(title) == title
  {
    if title == [] {
      assert LowerAscii([]) == [];
    } else {
      var c, rest := title[0], title[1..];
      assert title == [c] + rest;
      SlugBaseKeepsSlugText(rest);
      SlugBaseConcat([c], rest);
      SlugBaseOfChar(c);
    }
  }

  /**
   * A generated slug is made of slug characters only, and it ends with a
   * hyphen and the decimal digits of the clock reading, which read back as
   * that reading.
   */
  lemma GeneratedSlugShape(title: string, now: nat)
    ensures var slug := GeneratedSlug(title, now);
            forall i :: 0 <= i < |slug| ==> IsSlugChar(slug[i])
    ensures var slug := GeneratedSlug(title, now);
            var digits := Decimal(now);
            && |digits| < |slug|
            && slug[|slug| - |digits| - 1] == '-'
            && slug[|slug| - |digits|..] == digits
            && DigitsValue(slug[|slug| - |digits|..]) == now
  {
    GeneratedSlugCharset(title, now);
    var slug := GeneratedSlug(title, now);
    var digits := Decimal(now);
    DecimalRoundTrip(now);
    assert slug[|slug| - |digits|..] == digits;
  }

  lemma GeneratedSlugCharset(title: string, now: nat)
    ensures var slug := GeneratedSlug(title, now);
            forall i :: 0 <= i < |slug| ==> IsSlugChar(slug[i])
  {
    var base := SlugBase(title);
    var digits := Decimal(now);
    var slug := GeneratedSlug(title, now);
    SlugBaseCharset(title);
    forall i | 0 <= i < |slug| ensures IsSlugChar(slug[i]) {
      if i < |base| {
        assert slug[i] == base[i];
      } else if i > |base| {
        assert slug[i] == digits[i - |base| - 1];
      }
    }
  }

  /** The form values the submit handler receives; it may fill in the slug. */
  class EventFormData {
    var title: string
    var slug: string

    constructor (title: string, slug: string)
      ensures this.title == title && this.slug == slug
    {
      this.title := title;
      this.slug := slug;
    }

    /** Keeps a slug the organizer typed and otherwise generates one from the title at time `now`. */
    method FillSlug(now: nat)
      modifies this
      ensures title == old(title)
      ensures old(slug) != "" ==> slug == old(slug)
      ensures old(slug) == "" ==> slug == GeneratedSlug(title, now)
      ensures slug != ""
    {
      if slug == "" {
        slug := SlugBase(title) + "-" + Decimal(now);
      }
    }
  }
}
