/** The controller's renaming of a validation failure's property chain into
    the wire name reported to the client: `Address.Postal_Code` becomes
    `address.postal_code`, `EmergencyContact` would become `emergency_contact`. */
module SnakeCase {
  import opened Text

  // ---------------------------------------------------------------------------
  // One segment

  /** What the loop appends for character `c` at index `i`: an underscore
      before an upper-case letter that is not the first character, then the
      lower-cased character. */
  function Emit(c: char, i: nat): string {
    (if IsUpper(c) && i > 0 then "_" else "") + [ToLower(c)]
  }

  /** The characters the loop has built after reading all of `s`. */
  function Spaced(s: string): string {
    if |s| == 0 then "" else Spaced(s[..|s| - 1]) + Emit(s[|s| - 1], |s| - 1)
  }

  /** `ToSnakeCase`: a segment that already holds an underscore is only
      lower-cased; otherwise every inner capital starts a new word. */
  function ToSnakeCase(s: string): (t: string)
    ensures '_' in s ==> t == LowerAll(s)
    ensures NoUpper(t)
  {
    if '_' in s then LowerAll(s) else SpacedHasNoUpper(s); Spaced(s)
  }

  /** The method the controller runs, loop for loop. */
  method ToSnakeCaseLoop(input: string) returns (output: string)
    ensures output == ToSnakeCase(input)
  {
    if '_' in input {
      return LowerAll(input);
    }
    var chars: string := [];
    var i := 0;
    while i < |input|
      invariant 0 <= i <= |input|
      invariant chars == Spaced(input[..i])
    {
      var c := input[i];
      if IsUpper(c) && i > 0 {
        chars := chars + ['_'];
      }
      chars := chars + [ToLower(c)];
      assert input[..i + 1][..i] == input[..i];
      i := i + 1;
    }
    assert input[..|input|] == input;
    return chars;
  }

  // ---------------------------------------------------------------------------
  // Reference counts

  /** The number of upper-case letters in `s`. */
  function UpperCount(s: string): nat {
    if |s| == 0 then 0 else (if IsUpper(s[0]) then 1 else 0) + UpperCount(s[1..])
  }

  /** `s` with every occurrence of `c` removed. */
  function Without(s: string, c: char): (t: string)
    ensures c !in t
  {
    if |s| == 0 then "" else (if s[0] == c then "" else [s[0]]) + Without(s[1..], c)
  }

  lemma {:induction false} UpperCountAppend(s: string, c: char)
    ensures UpperCount(s + [c]) == UpperCount(s) + if IsUpper(c) then 1 else 0
  {
    if |s| > 0 {
      assert (s + [c])[1..] == s[1..] + [c];
      UpperCountAppend(s[1..], c);
    }
  }

  lemma {:induction false} WithoutConcat(a: string, b: string, c: char)
    ensures Without(a + b, c) == Without(a, c) + Without(b, c)
  {
    if |a| > 0 {
      assert (a + b)[1..] == a[1..] + b;
      WithoutConcat(a[1..], b, c);
    } else {
      assert a + b == b;
    }
  }

  lemma SpacedHasNoUpper(s: string)
    ensures NoUpper(Spaced(s))
  {
    if |s| > 0 {
      SpacedHasNoUpper(s[..|s| - 1]);
    }
  }

  /** One underscore is added per upper-case letter after the first
      character; a segment that already has an underscore keeps its length. */
  lemma ToSnakeCaseLength(s: string)
    ensures '_' in s ==> |ToSnakeCase(s)| == |s|
    ensures '_' !in s ==>
      |ToSnakeCase(s)| + (if |s| > 0 && IsUpper(s[0]) then 1 else 0) == |s| + UpperCount(s)
  {
    SpacedLengthPrefix(s);
  }

  lemma {:induction false} SpacedLengthPrefix(s: string)
    ensures |Spaced(s)| + (if |s| > 0 && IsUpper(s[0]) then 1 else 0) == |s| + UpperCount(s)
  {
    if |s| > 0 {
      var p := s[..|s| - 1];
      assert s == p + [s[|s| - 1]];
      SpacedLengthPrefix(p);
      UpperCountAppend(p, s[|s| - 1]);
      if |p| > 0 {
        assert p[0] == s[0];
      }
    }
  }

  /** Deleting the inserted underscores gives back the lower-cased segment. */
  lemma {:induction false} SpacedWithoutUnderscores(s: string)
    requires '_' !in s
    ensures Without(Spaced(s), '_') == LowerAll(s)
  {
    if |s| > 0 {
      var p := s[..|s| - 1];
      var c := s[|s| - 1];
      assert s == p + [c];
      assert c in s && forall x :: x in p ==> x in s;
      SpacedWithoutUnderscores(p);
      WithoutConcat(Spaced(p), Emit(c, |p|), '_');
      WithoutEmit(c, |p|);
      assert LowerAll(s) == LowerAll(p) + [ToLower(c)];
    }
  }

  /** What one character contributes once underscores are deleted. */
  lemma WithoutEmit(c: char, i: nat)
    requires c != '_'
    ensures Without(Emit(c, i), '_') == [ToLower(c)]
  {
    WithoutConcat(if IsUpper(c) && i > 0 then "_" else "", [ToLower(c)], '_');
    assert Without([ToLower(c)], '_') == [ToLower(c)];
  }

  lemma UnderscoreFreeRoundTrip(s: string)
    requires '_' !in s
    ensures Without(ToSnakeCase(s), '_') == LowerAll(s)
  {
    SpacedWithoutUnderscores(s);
  }

  /** A segment without capitals is left as it is. */
  lemma {:induction false} SpacedKeepsLower(s: string)
    requires NoUpper(s)
    ensures Spaced(s) == s
  {
    if |s| > 0 {
      var p := s[..|s| - 1];
      assert s == p + [s[|s| - 1]];
      SpacedKeepsLower(p);
    }
  }

  lemma LowerAllKeepsLower(s: string)
    requires NoUpper(s)
    ensures LowerAll(s) == s
  {
  }

  /** Renaming a renamed segment changes nothing. */
  lemma ToSnakeCaseIdempotent(s: string)
    ensures ToSnakeCase(ToSnakeCase(s)) == ToSnakeCase(s)
  {
    var t := ToSnakeCase(s);
    if '_' in t {
      LowerAllKeepsLower(t);
    } else {
      SpacedKeepsLower(t);
    }
  }

  /** Renaming never creates or removes a dot, and never empties a segment. */
  lemma {:induction false} SpacedKeepsDots(s: string)
    ensures '.' in Spaced(s) <==> '.' in s
    ensures |Spaced(s)| >= |s|
  {
    if |s| > 0 {
      var p := s[..|s| - 1];
      var c := s[|s| - 1];
      assert s == p + [c];
      SpacedKeepsDots(p);
      assert ToLower(c) == '.' <==> c == '.';
    }
  }

  lemma ToSnakeCaseKeepsDots(s: string)
    ensures '.' in ToSnakeCase(s) <==> '.' in s
    ensures |ToSnakeCase(s)| >= |s|
  {
    if '_' !in s {
      SpacedKeepsDots(s);
    } else {
      var t := LowerAll(s);
      forall i | 0 <= i < |s| ensures t[i] == '.' <==> s[i] == '.' {
      }
    }
  }

  // ---------------------------------------------------------------------------
  // Where the underscores go

  /** The underscores the loop inserts for `s`: one per upper-case letter
      after the first character. */
  function InnerCaps(s: string): nat {
    if |s| == 0 then 0
    else InnerCaps(s[..|s| - 1]) + (if IsUpper(s[|s| - 1]) && |s| > 1 then 1 else 0)
  }

  /** Where the loop writes character `j` of `s`: after the `j` characters
      before it and every underscore inserted up to and including it. */
  function Slot(s: string, j: nat): nat
    requires j < |s|
  {
    j + InnerCaps(s[..j + 1])
  }

  /** One output character per input character plus one per inner capital. */
  lemma {:induction false} SpacedLength(s: string)
    ensures |Spaced(s)| == |s| + InnerCaps(s)
  {
    if |s| > 0 {
      SpacedLength(s[..|s| - 1]);
    }
  }

  /** The output ends with the last input character, lower-cased. */
  lemma SpacedLast(s: string)
    requires |s| > 0
    ensures |Spaced(s)| > 0 && Spaced(s)[|Spaced(s)| - 1] == ToLower(s[|s| - 1])
  {
  }

  /** In a segment without '_', character `j` appears lower-cased at its slot,
      and the slot is preceded by an underscore exactly when `j` is an
      upper-case letter after the first position. */
  lemma {:induction false} SpacedAt(s: string, j: nat)
    requires '_' !in s && j < |s|
    ensures Slot(s, j) < |Spaced(s)|
    ensures Spaced(s)[Slot(s, j)] == ToLower(s[j])
    ensures (j > 0 && IsUpper(s[j])) <==> (Slot(s, j) > 0 && Spaced(s)[Slot(s, j) - 1] == '_')
  {
    var p := s[..|s| - 1];
    var c := s[|s| - 1];
    assert s == p + [c];
    assert Spaced(s) == Spaced(p) + Emit(c, |p|);
    SpacedLength(p);
    if j < |p| {
      assert s[..j + 1] == p[..j + 1];
      assert '_' !in p by {
        assert forall x :: x in p ==> x in s;
      }
      SpacedAt(p, j);
    } else {
      assert s[..j + 1] == s;
      var e := if IsUpper(c) && |p| > 0 then 1 else 0;
      assert Slot(s, j) == |Spaced(p)| + e;
      if e == 0 && |p| > 0 {
        SpacedLast(p);
        assert p[|p| - 1] in s;
      }
    }
  }

  /** Slots move right by one per character and by one more for each
      inserted underscore. */
  lemma SlotStep(s: string, j: nat)
    requires j + 1 < |s|
    ensures Slot(s, j + 1) == Slot(s, j) + 1 + (if IsUpper(s[j + 1]) then 1 else 0)
  {
    assert s[..j + 2][..j + 1] == s[..j + 1];
  }

  /** `ToSnakeCase` on a segment without '_': every character keeps its order
      and is lower-cased, and an underscore is inserted exactly before each
      upper-case letter that is not the first character. */
  lemma ToSnakeCaseAt(s: string, j: nat)
    requires '_' !in s && j < |s|
    ensures |ToSnakeCase(s)| == |s| + InnerCaps(s)
    ensures Slot(s, j) < |ToSnakeCase(s)|
    ensures ToSnakeCase(s)[Slot(s, j)] == ToLower(s[j])
    ensures (j > 0 && IsUpper(s[j])) <==> (Slot(s, j) > 0 && ToSnakeCase(s)[Slot(s, j) - 1] == '_')
  {
    SpacedLength(s);
    SpacedAt(s, j);
  }

  // ---------------------------------------------------------------------------
  // Dotted paths

  /** `s.Split('.')`: the pieces between dots, empty pieces included. */
  function Split(s: string): (parts: seq<string>)
    ensures |parts| >= 1
    ensures forall p :: p in parts ==> '.' !in p
    decreases |s|
  {
    if '.' !in s then [s]
    else
      var i := IndexOfDot(s);
      [s[..i]] + Split(s[i + 1..])
  }

  /** The position of the first dot of `s`. */
  function IndexOfDot(s: string): (i: nat)
    requires '.' in s
    ensures i < |s| && s[i] == '.' && '.' !in s[..i]
  {
    if s[0] == '.' then 0 else
      var j := IndexOfDot(s[1..]);
      assert s[..j + 1] == [s[0]] + s[1..][..j];
      j + 1
  }

  /** `string.Join(".", parts)`. */
  function Join(parts: seq<string>): string {
    if |parts| == 0 then ""
    else if |parts| == 1 then parts[0]
    else parts[0] + "." + Join(parts[1..])
  }

  /** Keeps the non-empty pieces (`StringSplitOptions.RemoveEmptyEntries`). */
  function NonEmpty(parts: seq<string>): (kept: seq<string>)
    ensures forall p :: p in kept <==> p in parts && p != ""
  {
    if |parts| == 0 then []
    else (if parts[0] == "" then [] else [parts[0]]) + NonEmpty(parts[1..])
  }

  /** The segments of a dotted path. */
  function Segments(path: string): seq<string> {
    NonEmpty(Split(path))
  }

  /** Renames every segment. */
  function MapSnake(parts: seq<string>): (out: seq<string>)
    ensures |out| == |parts|
    ensures forall i :: 0 <= i < |parts| ==> out[i] == ToSnakeCase(parts[i])
  {
    if |parts| == 0 then [] else [ToSnakeCase(parts[0])] + MapSnake(parts[1..])
  }

  /** `ToSnakeCasePath`: renames each non-empty segment and joins them with dots. */
  function ToSnakeCasePath(path: string): (t: string)
    ensures NoUpper(t)
  {
    var segs := MapSnake(Segments(path));
    JoinNoUpper(segs);
    Join(segs)
  }

  lemma {:induction false} JoinNoUpper(parts: seq<string>)
    requires forall p :: p in parts ==> NoUpper(p)
    ensures NoUpper(Join(parts))
  {
    if |parts| > 1 {
      JoinNoUpper(parts[1..]);
      assert parts[0] in parts;
    }
  }

  /** Splitting undoes joining, for pieces without dots. */
  lemma {:induction false} SplitJoin(parts: seq<string>)
    requires |parts| >= 1
    requires forall p :: p in parts ==> '.' !in p
    ensures Split(Join(parts)) == parts
  {
    if |parts| > 1 {
      var s := Join(parts);
      assert parts[0] in parts;
      assert s == parts[0] + "." + Join(parts[1..]);
      assert s[..|parts[0]|] == parts[0];
      FirstDotAt(s, |parts[0]|);
      var i := IndexOfDot(s);
      assert s[..i] == parts[0];
      assert s[i + 1..] == Join(parts[1..]);
      SplitJoin(parts[1..]);
    }
  }

  lemma {:induction false} FirstDotAt(s: string, k: nat)
    requires k < |s| && s[k] == '.' && '.' !in s[..k]
    ensures IndexOfDot(s) == k
  {
    if k > 0 {
      assert s[0] == s[..k][0];
      assert s[1..][..k - 1] == s[1..k];
      assert forall c :: c in s[1..k] ==> c in s[..k];
      FirstDotAt(s[1..], k - 1);
    }
  }

  /** Joining undoes splitting. */
  lemma {:induction false} JoinSplit(s: string)
    ensures Join(Split(s)) == s
    decreases |s|
  {
    if '.' in s {
      var i := IndexOfDot(s);
      JoinSplit(s[i + 1..]);
      assert s == s[..i] + "." + s[i + 1..];
    }
  }

  lemma {:induction false} NonEmptyKeepsNonEmpty(parts: seq<string>)
    requires forall p :: p in parts ==> p != ""
    ensures NonEmpty(parts) == parts
  {
    if |parts| > 0 {
      assert parts[0] in parts;
      assert forall p :: p in parts[1..] ==> p in parts;
      NonEmptyKeepsNonEmpty(parts[1..]);
    }
  }

  /** The renamed path has exactly the renamed segments of the input, in order. */
  lemma SegmentsOfRenamedPath(path: string)
    ensures Segments(ToSnakeCasePath(path)) == MapSnake(Segments(path))
  {
    var segs := MapSnake(Segments(path));
    forall p | p in segs ensures '.' !in p && p != "" {
      var i :| 0 <= i < |segs| && segs[i] == p;
      var q := Segments(path)[i];
      assert q in Segments(path) && p == ToSnakeCase(q);
      ToSnakeCaseKeepsDots(q);
    }
    if |segs| == 0 {
      assert Join(segs) == "";
      assert Split("") == [""];
      assert NonEmpty([""]) == [];
    } else {
      SplitJoin(segs);
      NonEmptyKeepsNonEmpty(segs);
    }
  }

  lemma {:induction false} MapSnakeIdempotent(parts: seq<string>)
    ensures MapSnake(MapSnake(parts)) == MapSnake(parts)
  {
    forall i | 0 <= i < |parts| ensures MapSnake(MapSnake(parts))[i] == MapSnake(parts)[i] {
      ToSnakeCaseIdempotent(parts[i]);
    }
  }

  /** Renaming a renamed path changes nothing. */
  lemma ToSnakeCasePathIdempotent(path: string)
    ensures ToSnakeCasePath(ToSnakeCasePath(path)) == ToSnakeCasePath(path)
  {
    SegmentsOfRenamedPath(path);
    MapSnakeIdempotent(Segments(path));
  }

  // ---------------------------------------------------------------------------
  // Paths whose segments are single words

  /** A segment whose only capital, if any, is its first character. */
  predicate SingleWord(s: string) {
    forall i :: 1 <= i < |s| ==> !IsUpper(s[i])
  }

  lemma {:induction false} SpacedSingleWord(s: string)
    requires SingleWord(s)
    ensures Spaced(s) == LowerAll(s)
  {
    if |s| > 0 {
      var p := s[..|s| - 1];
      assert s == p + [s[|s| - 1]];
      SpacedSingleWord(p);
    }
  }

  /** A word that starts with a capital and follows a non-empty segment is
      set off by an underscore and lower-cased. */
  lemma {:induction false} SpacedNewWord(a: string, b: string)
    requires |a| > 0 && |b| > 0 && IsUpper(b[0]) && SingleWord(b)
    ensures Spaced(a + b) == Spaced(a) + "_" + LowerAll(b)
  {
    var p := b[..|b| - 1];
    var c := b[|b| - 1];
    assert b == p + [c];
    assert (a + b)[..|a + b| - 1] == a + p;
    if |p| == 0 {
      assert a + p == a;
      assert LowerAll(b) == [ToLower(c)];
    } else {
      SpacedNewWord(a, p);
      assert LowerAll(b) == LowerAll(p) + [ToLower(c)];
    }
  }

  /** Two single words written together are joined by an underscore. */
  lemma TwoWordSegment(a: string, b: string)
    requires |a| > 0 && '_' !in a && SingleWord(a)
    requires |b| > 0 && '_' !in b && IsUpper(b[0]) && SingleWord(b)
    ensures ToSnakeCase(a + b) == LowerAll(a) + "_" + LowerAll(b)
  {
    assert '_' !in a + b by {
      assert forall x :: x in a + b ==> x in a || x in b;
    }
    SpacedNewWord(a, b);
    SpacedSingleWord(a);
  }

  /** A segment with an underscore or a single word is only lower-cased. */
  lemma RenamedSegmentIsLowered(s: string)
    requires '_' in s || SingleWord(s)
    ensures ToSnakeCase(s) == LowerAll(s)
  {
    if '_' !in s {
      SpacedSingleWord(s);
    }
  }

  /** A path joined from non-empty, dot-free segments is renamed segment by segment. */
  lemma RenameJoined(parts: seq<string>)
    requires |parts| >= 1
    requires forall p :: p in parts ==> p != "" && '.' !in p
    ensures ToSnakeCasePath(Join(parts)) == Join(MapSnake(parts))
  {
    SplitJoin(parts);
    NonEmptyKeepsNonEmpty(parts);
  }

  /** A two-segment path of words renames to its lower-cased form. */
  lemma RenameTwoWords(a: string, b: string)
    requires a != "" && '.' !in a && ('_' in a || SingleWord(a))
    requires b != "" && '.' !in b && ('_' in b || SingleWord(b))
    ensures ToSnakeCasePath(a + "." + b) == LowerAll(a) + "." + LowerAll(b)
  {
    var parts := [a, b];
    assert Join(parts) == a + "." + b;
    RenameJoined(parts);
    RenamedSegmentIsLowered(a);
    RenamedSegmentIsLowered(b);
    assert MapSnake(parts) == [LowerAll(a), LowerAll(b)];
  }

  /** A one-segment path of a word renames to its lower-cased form. */
  lemma RenameOneWord(a: string)
    requires a != "" && '.' !in a && ('_' in a || SingleWord(a))
    ensures ToSnakeCasePath(a) == LowerAll(a)
  {
    var parts := [a];
    RenameJoined(parts);
    RenamedSegmentIsLowered(a);
    assert MapSnake(parts) == [LowerAll(a)];
  }
}
