/**
 The pure helpers the screens use: the image file name derived from a place
 (lower-cased, whitespace removed, ".jpg" appended), the place shown on the
 summary screen, and whether the summary screen shows a place image.
 Characters are treated with their ASCII meaning only.
 */
module View {
  import opened Wrappers
  import opened Catalog
  import opened Flow

  /** ASCII whitespace as matched by the `\s` character class. */
  predicate IsSpace(c: char) {
    c == ' ' || c == '\t' || c == '\n' || c == '\r' || c == '\U{B}' || c == '\U{C}'
  }

  predicate IsUpper(c: char) {
    'A' <= c <= 'Z'
  }

  /** ASCII lower-casing; every other character is kept. */
  function ToLower(c: char): (r: char)
    ensures !IsUpper(r)
    ensures IsUpper(c) ==> 'a' <= r <= 'z' && r as int - 'a' as int == c as int - 'A' as int
    ensures !IsUpper(c) ==> r == c
    ensures IsSpace(r) <==> IsSpace(c)
  {
    if IsUpper(c) then (c as int + 32) as char else c
  }

  /** A string with no whitespace and no upper-case letter. */
  predicate Clean(s: string) {
    forall i :: 0 <= i < |s| ==> !IsSpace(s[i]) && !IsUpper(s[i])
  }

  /** The image-name normaliser: lower-case every letter and drop every
      whitespace character (dropping each whitespace run as a whole is the
      same as dropping its characters one by one). */
  function Normalize(s: string): (r: string)
    ensures Clean(r)
    ensures |r| <= |s|
    decreases |s|
  {
    if s == [] then []
    else if IsSpace(s[0]) then Normalize(s[1..])
    else [ToLower(s[0])] + Normalize(s[1..])
  }

  /** The image file shown for a place: the place lower-cased with its
      whitespace removed, followed by ".jpg". */
  function ImageFile(place: string): (r: string)
    ensures |r| >= 4 && r[|r| - 4..] == ".jpg"
    ensures Clean(r[..|r| - 4])
    ensures r[..|r| - 4] == KeepNonSpace(LowerAll(place))
  {
    NormalizeIsLowerThenFilter(place);
    assert (Normalize(place) + ".jpg")[..|Normalize(place)|] == Normalize(place);
    Normalize(place) + ".jpg"
  }

  /** Normalising distributes over concatenation. */
  lemma {:induction false} NormalizeAppend(a: string, b: string)
    ensures Normalize(a + b) == Normalize(a) + Normalize(b)
    decreases |a|
  {
    if a == [] {
      assert a + b == b;
    } else {
      assert (a + b)[0] == a[0];
      assert (a + b)[1..] == a[1..] + b;
      NormalizeAppend(a[1..], b);
    }
  }

  /** A clean string is its own normal form. */
  lemma {:induction false} NormalizeClean(s: string)
    requires Clean(s)
    ensures Normalize(s) == s
    decreases |s|
  {
    if s != [] {
      assert Clean(s[1..]) by {
        forall i | 0 <= i < |s[1..]|
          ensures !IsSpace(s[1..][i]) && !IsUpper(s[1..][i])
        {
          assert s[1..][i] == s[i + 1];
        }
      }
      NormalizeClean(s[1..]);
      assert [s[0]] + s[1..] == s;
    }
  }

  /** Normalising leaves a string unchanged exactly when it is already clean. */
  lemma NormalizeFixedIff(s: string)
    ensures Normalize(s) == s <==> Clean(s)
  {
    if Clean(s) {
      NormalizeClean(s);
    }
  }

  /** Normalising twice is the same as normalising once. */
  lemma NormalizeIdempotent(s: string)
    ensures Normalize(Normalize(s)) == Normalize(s)
  {
    NormalizeClean(Normalize(s));
  }

  /** The non-whitespace characters of a string, in order. */
  function KeepNonSpace(s: string): (r: string)
    ensures forall i :: 0 <= i < |r| ==> !IsSpace(r[i])
    ensures |r| <= |s|
    decreases |s|
  {
    if s == [] then []
    else if IsSpace(s[0]) then KeepNonSpace(s[1..])
    else [s[0]] + KeepNonSpace(s[1..])
  }

  /** Every character of a string lower-cased, position by position. */
  function LowerAll(s: string): (r: string)
    ensures |r| == |s|
    ensures forall i :: 0 <= i < |s| ==> r[i] == ToLower(s[i])
  {
    seq(|s|, i requires 0 <= i < |s| => ToLower(s[i]))
  }

  /** The normaliser is "remove whitespace" followed by "lower-case": it keeps
      every non-whitespace character, lower-cased, in order. */
  lemma {:induction false} NormalizeIsFilterThenLower(s: string)
    ensures Normalize(s) == LowerAll(KeepNonSpace(s))
    decreases |s|
  {
    if s != [] {
      NormalizeIsFilterThenLower(s[1..]);
      if !IsSpace(s[0]) {
        assert LowerAll([s[0]] + KeepNonSpace(s[1..])) == [ToLower(s[0])] + LowerAll(KeepNonSpace(s[1..]));
      }
    }
  }

  /** The normaliser in the order the page applies it: lower-case first,
      then remove whitespace. */
  lemma {:induction false} NormalizeIsLowerThenFilter(s: string)
    ensures Normalize(s) == KeepNonSpace(LowerAll(s))
    decreases |s|
  {
    if s != [] {
      NormalizeIsLowerThenFilter(s[1..]);
      assert LowerAll(s) == [ToLower(s[0])] + LowerAll(s[1..]);
    }
  }

  /** The place named on the summary screen: the custom text when the custom
      option was recorded, the recorded place otherwise. */
  function DisplayPlace(s: State): (r: string)
    ensures s.restaurantChoice == CustomOption ==> r == s.customPlace
    ensures s.restaurantChoice != CustomOption ==> r == s.restaurantChoice
  {
    if s.restaurantChoice == CustomOption then s.customPlace else s.restaurantChoice
  }

  /** Whether the summary screen shows a place image; when it does, the image
      belongs to the place named on that screen, and never to the sentinel. */
  predicate ShowImage(s: State)
    ensures ShowImage(s) ==> DisplayPlace(s) == s.restaurantChoice && s.restaurantChoice != NoRestaurantSentinel
  {
    s.restaurantChoice != CustomOption && s.restaurantChoice != NoRestaurantSentinel
  }

  /** After a place is picked, the summary shows that place; a given prompt
      answer is shown as typed; a cancelled prompt shows what was shown before. */
  lemma DisplayAfterPick(s: State, place: string, input: Option<string>)
    ensures place != CustomOption ==> DisplayPlace(RestaurantChoice(s, place, input)) == place
    ensures place == CustomOption && Answered(input) ==>
              DisplayPlace(RestaurantChoice(s, place, input)) == input.value
    ensures place == CustomOption && !Answered(input) ==>
              DisplayPlace(RestaurantChoice(s, place, input)) == DisplayPlace(s)
  {
  }

  /** An image is shown exactly when the displayed place is the recorded place
      itself and not the sentinel; the sentinel date type never shows one. */
  lemma ShowImageIff(s: State)
    requires s.restaurantChoice != CustomOption || s.customPlace != CustomOption
    ensures ShowImage(s) <==> DisplayPlace(s) == s.restaurantChoice && s.restaurantChoice != NoRestaurantSentinel
    ensures !ShowImage(DateChoice(s, NoRestaurantDate))
  {
  }

  /** A catalog place picked from the list is shown with an image. */
  lemma CatalogPickShowsImage(s: State, place: string, input: Option<string>)
    requires IsCatalogPlace(place)
    ensures ShowImage(RestaurantChoice(s, place, input))
    ensures DisplayPlace(RestaurantChoice(s, place, input)) == place
  {
  }

  /** Cancelling the custom prompt on a fresh run reaches the summary with an
      empty place, and the summary then asks for the image file ".jpg". */
  lemma CancelledCustomShowsEmptyImage()
    ensures var t := RestaurantChoice(DateChoice(ValentineAnswer(HeartClick(Initial)), DinnerDate),
                                      CustomOption, None);
      t.step == 4 && DisplayPlace(t) == "" && ShowImage(t) && ImageFile(t.restaurantChoice) == ".jpg"
  {
  }
}
