// The event-id validators of the cache service: `valid_event_id` and
// `is_valid_object_id`. Each runs an anchored regular expression through
// `re.match`; the matcher below models those patterns position by position
// and is proved against a direct description of the accepted shapes.

module EventIds {
  import opened Optional
  import opened Strings

  /** One position of a fixed-length pattern. */
  datatype CharClass = Hex(ignoreCase: bool) | Lit(c: char)

  predicate InClass(k: CharClass, c: char) {
    match k
    case Hex(ignoreCase) => if ignoreCase then IsHexAnyCase(c) else IsLowerHex(c)
    case Lit(l) => c == l
  }

  /** `k{n}`. */
  function Repeat(k: CharClass, n: nat): (t: seq<CharClass>)
    ensures |t| == n
    ensures forall i :: 0 <= i < n ==> t[i] == k
  {
    if n == 0 then [] else Repeat(k, n - 1) + [k]
  }

  /** `[0-9a-f]{8}-[0-9a-f]{4}-[0-9a-f]{4}-[0-9a-f]{4}-[0-9a-f]{12}`, compiled with `re.IGNORECASE`. */
  function UuidPattern(): seq<CharClass> {
    var h := Hex(true);
    Repeat(h, 8) + [Lit('-')] + Repeat(h, 4) + [Lit('-')] + Repeat(h, 4) + [Lit('-')]
      + Repeat(h, 4) + [Lit('-')] + Repeat(h, 12)
  }

  /** `[0-9a-f]{24}`, case-sensitive. */
  function ObjectIdPattern(): seq<CharClass> {
    Repeat(Hex(false), 24)
  }

  /** The pattern matches all of `s`, one class per character. */
  predicate MatchesAll(p: seq<CharClass>, s: string) {
    |s| == |p| && forall i :: 0 <= i < |s| ==> InClass(p[i], s[i])
  }

  /**
   * `re.match('^' + p + '$', s)`: without `re.MULTILINE`, `$` matches at
   * the end of the string and also just before a newline that ends it.
   */
  predicate AnchoredMatch(p: seq<CharClass>, s: string) {
    MatchesAll(p, s) || (|s| > 0 && s[|s| - 1] == '\n' && MatchesAll(p, s[..|s| - 1]))
  }

  predicate NoNewline(s: string) {
    forall i :: 0 <= i < |s| ==> s[i] != '\n'
  }

  /** `re.match(r'^waze_.*$', s)`: `.` stops at a newline, and `$` may sit before a final one. */
  predicate WazeMatch(s: string) {
    && StartsWith(s, WazeIdPrefix)
    && var rest := s[|WazeIdPrefix|..];
       NoNewline(rest) || (|rest| > 0 && rest[|rest| - 1] == '\n' && NoNewline(rest[..|rest| - 1]))
  }

  const WazeIdPrefix := "waze_"

  // ---- The accepted shapes, stated directly ----

  predicate IsDashPosition(i: int) {
    i == 8 || i == 13 || i == 18 || i == 23
  }

  /** 32 hex digits of either case, grouped 8-4-4-4-12 by dashes. */
  predicate UuidShape(s: string) {
    && |s| == 36
    && (forall i :: 0 <= i < 36 && IsDashPosition(i) ==> s[i] == '-')
    && (forall i :: 0 <= i < 36 && !IsDashPosition(i) ==> IsHexAnyCase(s[i]))
  }

  /** 24 lower-case hex digits, the text form of a MongoDB ObjectId. */
  predicate ObjectIdShape(s: string) {
    |s| == 24 && forall i :: 0 <= i < 24 ==> IsLowerHex(s[i])
  }

  /** `s` is of the shape, or of the shape followed by one newline. */
  predicate UpToFinalNewline(s: string, shape: string -> bool) {
    shape(s) || (|s| > 0 && s[|s| - 1] == '\n' && shape(s[..|s| - 1]))
  }

  lemma UuidPatternAt()
    ensures |UuidPattern()| == 36
    ensures forall i :: 0 <= i < 36 ==>
      UuidPattern()[i] == if IsDashPosition(i) then Lit('-') else Hex(true)
  {
    var h := Hex(true);
    var p := UuidPattern();
    var a := Repeat(h, 8) + [Lit('-')];
    var b := a + Repeat(h, 4) + [Lit('-')];
    var c := b + Repeat(h, 4) + [Lit('-')];
    var d := c + Repeat(h, 4) + [Lit('-')];
    assert p == d + Repeat(h, 12);
    forall i | 0 <= i < 36
      ensures p[i] == if IsDashPosition(i) then Lit('-') else Hex(true)
    {
      if i < 9 {
        assert p[i] == a[i];
      } else if i < 14 {
        assert p[i] == b[i];
      } else if i < 19 {
        assert p[i] == c[i];
      } else if i < 24 {
        assert p[i] == d[i];
      }
    }
  }

  lemma UuidPatternMatchesShape(s: string)
    ensures MatchesAll(UuidPattern(), s) <==> UuidShape(s)
  {
    UuidPatternAt();
    if |s| == 36 {
      if UuidShape(s) {
        forall i | 0 <= i < 36
          ensures InClass(UuidPattern()[i], s[i])
        {
          if IsDashPosition(i) {
            assert s[i] == '-';
          }
        }
      }
      if MatchesAll(UuidPattern(), s) {
        forall i | 0 <= i < 36
          ensures InClass(UuidPattern()[i], s[i])
        {
        }
      }
    }
  }

  lemma ObjectIdPatternMatchesShape(s: string)
    ensures MatchesAll(ObjectIdPattern(), s) <==> ObjectIdShape(s)
  {
  }

  /** Both anchored patterns accept exactly their shape, up to one final newline. */
  lemma AnchoredMatchesShapes(s: string)
    ensures AnchoredMatch(UuidPattern(), s) <==> UpToFinalNewline(s, UuidShape)
    ensures AnchoredMatch(ObjectIdPattern(), s) <==> UpToFinalNewline(s, ObjectIdShape)
  {
    UuidPatternMatchesShape(s);
    ObjectIdPatternMatchesShape(s);
    if |s| > 0 {
      UuidPatternMatchesShape(s[..|s| - 1]);
      ObjectIdPatternMatchesShape(s[..|s| - 1]);
    }
  }

  /**
   * `valid_event_id`: a missing or empty id is refused; otherwise the id
   * must match the UUID pattern (any case), the ObjectId pattern or the
   * `waze_` pattern, each up to one final newline.
   */
  function ValidEventId(eventId: Option<string>): (valid: bool)
    ensures eventId.None? || eventId.value == "" ==> !valid
    ensures eventId.Some? && eventId.value != "" ==>
      (valid <==> || UpToFinalNewline(eventId.value, UuidShape)
                  || UpToFinalNewline(eventId.value, ObjectIdShape)
                  || WazeMatch(eventId.value))
  {
    if eventId.None? || eventId.value == "" then false
    else
      var s := eventId.value;
      AnchoredMatchesShapes(s);
      AnchoredMatch(UuidPattern(), s) || AnchoredMatch(ObjectIdPattern(), s) || WazeMatch(s)
  }

  /** `is_valid_object_id`: 24 lower-case hex digits, up to one final newline. */
  function IsValidObjectId(s: string): (valid: bool)
    ensures valid <==> UpToFinalNewline(s, ObjectIdShape)
  {
    AnchoredMatchesShapes(s);
    AnchoredMatch(ObjectIdPattern(), s)
  }

  // ---- Consequences ----

  /** For an id without newlines the validator accepts exactly the three documented forms. */
  lemma ValidWithoutNewline(s: string)
    requires NoNewline(s)
    ensures ValidEventId(Some(s)) <==> UuidShape(s) || ObjectIdShape(s) || StartsWith(s, WazeIdPrefix)
  {
    if s != "" && StartsWith(s, WazeIdPrefix) {
      assert NoNewline(s[|WazeIdPrefix|..]);
    }
  }

  /** Every ObjectId the cache accepts as such is also a valid event id. */
  lemma ObjectIdIsEventId(s: string)
    requires IsValidObjectId(s)
    ensures ValidEventId(Some(s))
  {
  }

  /** A UUID or an ObjectId followed by a newline still passes, as `$` allows. */
  lemma FinalNewlineAccepted(s: string)
    requires UuidShape(s) || ObjectIdShape(s)
    ensures ValidEventId(Some(s + "\n"))
    ensures ObjectIdShape(s) ==> IsValidObjectId(s + "\n")
  {
    assert (s + "\n")[..|s|] == s;
  }

  /**
   * A `waze_` id with a newline anywhere before its last character is
   * refused: `.` does not cross the newline, and `$` only allows one at the end.
   */
  lemma InnerNewlineRefused(s: string, i: nat)
    requires StartsWith(s, WazeIdPrefix)
    requires |WazeIdPrefix| <= i < |s| - 1 && s[i] == '\n'
    ensures !ValidEventId(Some(s))
  {
    assert s[0] == s[..|WazeIdPrefix|][0] == 'w';
    var rest := s[|WazeIdPrefix|..];
    var k := i - |WazeIdPrefix|;
    assert rest[k] == '\n';
    assert rest[..|rest| - 1][k] == '\n';
    var t := s[..|s| - 1];
    assert t[0] == 'w';
    assert !UuidShape(s) && !UuidShape(t) by {
      assert !IsDashPosition(0);
    }
  }
}
