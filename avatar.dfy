/**
 * The Avatar component's decisions: the text shown when there is no image
 * (explicit initials, a placeholder, or the first letters of the first two
 * words of the name), which status badge to show, and which size
 * configuration applies.
 */
module Avatar {
  import opened Common

  // ---------------------------------------------------------------------------
  // Strings
  // ---------------------------------------------------------------------------

  /** `toUpperCase` on one character, for the ASCII letters. */
  function UpperChar(c: char): (r: char)
    ensures 'a' <= c <= 'z' ==> 'A' <= r <= 'Z' && r as int == c as int - 32
    ensures !('a' <= c <= 'z') ==> r == c
  {
    if 'a' <= c <= 'z' then (c as int - 32) as char else c
  }

  /** `toUpperCase`: character by character, keeping the length. */
  function Upper(s: string): (r: string)
    ensures |r| == |s|
    ensures forall i :: 0 <= i < |s| ==> r[i] == UpperChar(s[i])
  {
    if |s| == 0 then "" else [UpperChar(s[0])] + Upper(s[1..])
  }

  /**
   * `s.split(" ")`: the pieces between single spaces, in order. There is
   * always at least one piece, and consecutive, leading or trailing spaces
   * produce empty pieces.
   */
  function Split(s: string): (r: seq<string>)
    ensures |r| >= 1
  {
    if |s| == 0 then [""]
    else if s[0] == ' ' then [""] + Split(s[1..])
    else
      var rest := Split(s[1..]);
      [[s[0]] + rest[0]] + rest[1..]
  }

  /** `pieces.join(" ")`. */
  function Join(pieces: seq<string>): string
    requires |pieces| >= 1
  {
    if |pieces| == 1 then pieces[0] else pieces[0] + " " + Join(pieces[1..])
  }

  /** The pieces contain no space, and joining them with single spaces gives the string back. */
  lemma {:induction false} SplitJoin(s: string)
    ensures Join(Split(s)) == s
    ensures forall i, j :: 0 <= i < |Split(s)| && 0 <= j < |Split(s)[i]| ==> Split(s)[i][j] != ' '
  {
    if |s| > 0 {
      SplitJoin(s[1..]);
      var rest := Split(s[1..]);
      if s[0] == ' ' {
        assert Split(s) == [""] + rest;
        assert Split(s)[1..] == rest;
      } else {
        assert Split(s) == [[s[0]] + rest[0]] + rest[1..];
        if |rest| == 1 {
          assert Join(Split(s)) == [s[0]] + rest[0];
        } else {
          assert Split(s)[1..] == rest[1..];
          assert Join(Split(s)) == ([s[0]] + rest[0]) + " " + Join(rest[1..]);
          assert Join(rest) == rest[0] + " " + Join(rest[1..]);
        }
        forall i, j | 0 <= i < |Split(s)| && 0 <= j < |Split(s)[i]|
          ensures Split(s)[i][j] != ' '
        {
          if i == 0 && j > 0 {
            assert Split(s)[0][j] == rest[0][j - 1];
          } else if i > 0 {
            assert Split(s)[i] == rest[i];
          }
        }
      }
    }
  }

  /** Splitting at a space splits the two sides separately. */
  lemma {:induction false} SplitAtSpace(a: string, b: string)
    ensures Split(a + " " + b) == Split(a) + Split(b)
  {
    if |a| == 0 {
      assert a + " " + b == " " + b;
      assert (" " + b)[1..] == b;
    } else {
      assert (a + " " + b)[1..] == a[1..] + " " + b;
      SplitAtSpace(a[1..], b);
      if a[0] != ' ' {
        var rest := Split(a[1..]);
        assert Split(a[1..] + " " + b) == rest + Split(b);
        assert (rest + Split(b))[0] == rest[0];
        assert (rest + Split(b))[1..] == rest[1..] + Split(b);
      }
    }
  }

  /** `.filter((n) => n.length > 0)`: the non-empty pieces, in their order. */
  function NonEmpty(pieces: seq<string>): (r: seq<string>)
    ensures forall i :: 0 <= i < |r| ==> |r[i]| > 0
    ensures |r| <= |pieces|
  {
    if |pieces| == 0 then []
    else (if |pieces[0]| > 0 then [pieces[0]] else []) + NonEmpty(pieces[1..])
  }

  /** The filter keeps exactly the non-empty pieces: it adds none and drops no non-empty one. */
  lemma {:induction false} NonEmptyMembers(pieces: seq<string>)
    ensures forall x :: x in NonEmpty(pieces) <==> x in pieces && |x| > 0
  {
    if |pieces| > 0 {
      NonEmptyMembers(pieces[1..]);
      assert pieces == [pieces[0]] + pieces[1..];
    }
  }

  lemma {:induction false} NonEmptyAppend(p: seq<string>, q: seq<string>)
    ensures NonEmpty(p + q) == NonEmpty(p) + NonEmpty(q)
  {
    if |p| == 0 {
      assert p + q == q;
    } else {
      assert (p + q)[1..] == p[1..] + q;
      NonEmptyAppend(p[1..], q);
    }
  }

  /** The words of a name: the non-empty pieces between spaces. */
  function Words(s: string): seq<string> {
    NonEmpty(Split(s))
  }

  /**
   * A space between two strings contributes nothing of its own: the words of
   * the whole are the words of each side. So leading, trailing and repeated
   * spaces never add a word.
   */
  lemma WordsAtSpace(a: string, b: string)
    ensures Words(a + " " + b) == Words(a) + Words(b)
  {
    SplitAtSpace(a, b);
    NonEmptyAppend(Split(a), Split(b));
  }

  /** Extra spaces around or between words do not change the words. */
  lemma ExtraSpacesIgnored(a: string, b: string)
    ensures Words(" " + a) == Words(a)
    ensures Words(a + " ") == Words(a)
    ensures Words(a + "  " + b) == Words(a + " " + b)
  {
    LeadingSpace(a);
    TrailingSpace(a);
    DoubleSpace(a, b);
  }

  lemma DoubleSpace(a: string, b: string)
    ensures Words(a + "  " + b) == Words(a + " " + b)
  {
    var a' := a + " ";
    var whole := a' + " " + b;
    assert whole == a + "  " + b by {
      assert |whole| == |a + "  " + b|;
      forall i | 0 <= i < |whole| ensures whole[i] == (a + "  " + b)[i] {
      }
    }
    calc {
      Words(whole);
      { WordsAtSpace(a', b); }
      Words(a') + Words(b);
      { TrailingSpace(a); }
      Words(a) + Words(b);
      { WordsAtSpace(a, b); }
      Words(a + " " + b);
    }
  }

  lemma LeadingSpace(a: string)
    ensures Words(" " + a) == Words(a)
  {
    WordsAtSpace("", a);
    assert "" + " " + a == " " + a;
    assert Words("") == [];
  }

  lemma TrailingSpace(a: string)
    ensures Words(a + " ") == Words(a)
  {
    WordsAtSpace(a, "");
    assert a + " " + "" == a + " ";
    assert Words("") == [];
  }

  /** A name made only of spaces has no words at all. */
  lemma {:induction false} BlankHasNoWords(s: string)
    requires forall i :: 0 <= i < |s| ==> s[i] == ' '
    ensures Words(s) == []
  {
    if |s| > 0 {
      BlankHasNoWords(s[1..]);
      WordsAtSpace("", s[1..]);
      assert "" + " " + s[1..] == s;
    }
  }

  // ---------------------------------------------------------------------------
  // Initials
  // ---------------------------------------------------------------------------

  /** `.slice(0, 2).map((n) => n[0]).join("")` on non-empty words. */
  function FirstLetters(words: seq<string>): (r: string)
    requires forall i :: 0 <= i < |words| ==> |words[i]| > 0
    ensures |r| == MinInt(2, |words|)
    ensures forall i :: 0 <= i < |r| ==> r[i] == words[i][0]
  {
    if |words| == 0 then ""
    else if |words| == 1 then [words[0][0]]
    else [words[0][0], words[1][0]]
  }

  /**
   * getInitials: explicit initials (upper-cased) when given, the placeholder
   * when there is no name, otherwise the upper-cased first letters of the
   * first two words of the name.
   */
  function Initials(initials: Option<string>, name: Option<string>, placeholder: string): string {
    if Truthy(initials) then Upper(initials.value)
    else if !Truthy(name) then placeholder
    else Upper(FirstLetters(Words(name.value)))
  }

  /** Explicit initials win and are upper-cased; without them and without a name, the placeholder shows. */
  lemma InitialsPrecedence(initials: Option<string>, name: Option<string>, placeholder: string)
    ensures Truthy(initials) ==> Initials(initials, name, placeholder) == Upper(initials.value)
    ensures !Truthy(initials) && !Truthy(name) ==> Initials(initials, name, placeholder) == placeholder
  {
  }

  /**
   * Derived from a name, the initials have one letter per word up to two:
   * the upper-cased first character of the first and of the second word.
   */
  lemma DerivedInitials(name: string, placeholder: string)
    requires name != ""
    ensures var r := Initials(None, Some(name), placeholder);
            var w := Words(name);
            |r| == MinInt(2, |w|)
            && (forall i :: 0 <= i < |r| ==> r[i] == UpperChar(w[i][0]))
  {
  }

  /** Two words separated by a single space give the two first letters. */
  lemma TwoWordNames(first: string, second: string, placeholder: string)
    requires |first| > 0 && |second| > 0
    requires forall i :: 0 <= i < |first| ==> first[i] != ' '
    requires forall i :: 0 <= i < |second| ==> second[i] != ' '
    ensures Initials(None, Some(first + " " + second), placeholder) == [UpperChar(first[0]), UpperChar(second[0])]
  {
    WordsAtSpace(first, second);
    SingleWord(first);
    SingleWord(second);
  }

  /** A string without spaces is one piece, and so one word when it is not empty. */
  lemma {:induction false} SingleWord(s: string)
    requires forall i :: 0 <= i < |s| ==> s[i] != ' '
    ensures Split(s) == [s]
    ensures |s| > 0 ==> Words(s) == [s]
  {
    if |s| > 0 {
      SingleWord(s[1..]);
      assert [s[0]] + s[1..] == s;
    }
  }

  /**
   * A name made only of spaces is truthy, so the placeholder is not used;
   * it has no words, so the initials are empty.
   */
  lemma BlankNameGivesNoInitials(name: string, placeholder: string)
    requires name != ""
    requires forall i :: 0 <= i < |name| ==> name[i] == ' '
    ensures Initials(None, Some(name), placeholder) == ""
  {
    BlankHasNoWords(name);
  }

  // ---------------------------------------------------------------------------
  // Status badge and size
  // ---------------------------------------------------------------------------

  /** One entry of the status table: whether it has an icon, and its background colour class. */
  datatype StatusStyle = StatusStyle(hasIcon: bool, bgColor: string)

  /** The status table; names outside it have no entry. */
  function StatusConfig(status: string): (r: Option<StatusStyle>)
    ensures r.Some? <==> status in {"verified", "online", "offline", "away", "busy"}
    ensures r.Some? ==> (r.value.hasIcon <==> status == "verified")
  {
    if status == "verified" then Some(StatusStyle(true, "bg-blue-500"))
    else if status == "online" then Some(StatusStyle(false, "bg-green-500"))
    else if status == "offline" then Some(StatusStyle(false, "bg-gray-400"))
    else if status == "away" then Some(StatusStyle(false, "bg-yellow-500"))
    else if status == "busy" then Some(StatusStyle(false, "bg-red-500"))
    else None
  }

  /** `verified ? "verified" : status`. */
  function ActiveStatus(verified: bool, status: Option<string>): Option<string>
  {
    if verified then Some("verified") else status
  }

  /** `activeStatus ? statusConfig[activeStatus] : null`. */
  function StatusInfo(verified: bool, status: Option<string>): Option<StatusStyle> {
    var active := ActiveStatus(verified, status);
    if Truthy(active) then StatusConfig(active.value) else None
  }

  /** What the badge corner shows. */
  datatype Badge = NoBadge | CustomBadge | StatusIcon | StatusDot(bgColor: string)

  /**
   * The badge: shown when there is status information or a custom badge;
   * the custom badge wins, then the status icon, then a coloured dot.
   */
  function BadgeContent(verified: bool, status: Option<string>, hasCustomBadge: bool): (r: Badge)
    ensures r == NoBadge <==> !hasCustomBadge && StatusInfo(verified, status).None?
    ensures hasCustomBadge ==> r == CustomBadge
  {
    var info := StatusInfo(verified, status);
    if hasCustomBadge then CustomBadge
    else if info.None? then NoBadge
    else if info.value.hasIcon then StatusIcon
    else StatusDot(info.value.bgColor)
  }

  /** `verified` overrides any status: without a custom badge the verified icon shows. */
  lemma VerifiedOverridesStatus(status: Option<string>, hasCustomBadge: bool)
    ensures ActiveStatus(true, status) == Some("verified")
    ensures !hasCustomBadge ==> BadgeContent(true, status, hasCustomBadge) == StatusIcon
  {
  }

  /** Only the verified status draws an icon; the others draw a dot in their colour. */
  lemma OnlyVerifiedHasIcon(status: string)
    ensures BadgeContent(false, Some(status), false) == StatusIcon <==> status == "verified"
    ensures status == "online" ==> BadgeContent(false, Some(status), false) == StatusDot("bg-green-500")
    ensures status !in {"verified", "online", "offline", "away", "busy"} ==> BadgeContent(false, Some(status), false) == NoBadge
  {
  }

  datatype Size = XS | SM | MD | LG | XL | XXL

  /** `sizeConfig[size] || sizeConfig.md`: the named size, or md for any other name. */
  function SizeFor(size: string): (r: Size)
    ensures size !in {"xs", "sm", "md", "lg", "xl", "2xl"} ==> r == MD
    ensures size == "2xl" ==> r == XXL
  {
    if size == "xs" then XS
    else if size == "sm" then SM
    else if size == "lg" then LG
    else if size == "xl" then XL
    else if size == "2xl" then XXL
    else MD
  }
}
