/**
 * The string operations the decoder relies on: `String.Split` on one
 * delimiter, the `RemoveEmptyEntries` option, `String.IsNullOrWhiteSpace`
 * and `String.TrimEnd` on one character. Strings are sequences of
 * characters; a null string is not distinguished from the empty one.
 */
module Text {

  /** The position of the first occurrence of `c` in `s`. */
  function IndexOf(s: string, c: char): (i: nat)
    requires c in s
    ensures i < |s| && s[i] == c
    ensures forall k :: 0 <= k < i ==> s[k] != c
  {
    if s[0] == c then 0
    else
      assert c in s[1..] by {
        var j :| 0 <= j < |s| && s[j] == c;
        assert s[1..][j - 1] == c;
      }
      1 + IndexOf(s[1..], c)
  }

  /** `s.Split(sep)` with no options: every segment, empty ones included. */
  function Split(s: string, sep: char): (parts: seq<string>)
    ensures |parts| >= 1
    ensures forall k :: 0 <= k < |parts| ==> sep !in parts[k]
    decreases |s|
  {
    if sep !in s then [s]
    else
      var i := IndexOf(s, sep);
      [s[..i]] + Split(s[i + 1..], sep)
  }

  /** `String.Join(sep, parts)`: the inverse of `Split`. */
  function Join(parts: seq<string>, sep: char): string
  {
    if parts == [] then ""
    else if |parts| == 1 then parts[0]
    else parts[0] + [sep] + Join(parts[1..], sep)
  }

  /** Joining the segments with the delimiter gives back the original text. */
  lemma {:induction false} JoinSplit(s: string, sep: char)
    ensures Join(Split(s, sep), sep) == s
    decreases |s|
  {
    if sep in s {
      var i := IndexOf(s, sep);
      var rest := Split(s[i + 1..], sep);
      JoinSplit(s[i + 1..], sep);
      assert Split(s, sep)[1..] == rest;
      assert s == s[..i] + [sep] + s[i + 1..];
    }
  }

  /** An occurrence with none before it is the one `IndexOf` finds. */
  lemma IndexOfFirst(s: string, c: char, j: nat)
    requires j < |s| && s[j] == c
    requires forall k :: 0 <= k < j ==> s[k] != c
    ensures c in s && IndexOf(s, c) == j
  {
    var i := IndexOf(s, c);
    if i < j {
      assert false;
    } else if j < i {
      assert false;
    }
  }

  /** The text is cut at a delimiter that has none before it. */
  lemma SplitAtFirst(s: string, sep: char, j: nat)
    requires j < |s| && s[j] == sep
    requires forall k :: 0 <= k < j ==> s[k] != sep
    ensures Split(s, sep) == [s[..j]] + Split(s[j + 1..], sep)
  {
    IndexOfFirst(s, sep, j);
  }

  /** The delimiter after a text that has none: the text is the first segment. */
  lemma SplitAroundPlain(a: string, b: string, sep: char)
    requires sep !in a
    ensures Split(a + [sep] + b, sep) == Split(a, sep) + Split(b, sep)
  {
    var s := a + [sep] + b;
    forall k | 0 <= k < |a| ensures s[k] != sep {
      assert s[k] == a[k];
    }
    SplitAtFirst(s, sep, |a|);
    assert s[..|a|] == a && s[|a| + 1..] == b;
  }

  /** A delimiter inside `a` cuts `a + [sep] + b` where it cuts `a`. */
  lemma SplitAroundCut(a: string, b: string, sep: char) returns (i: nat)
    requires sep in a
    ensures i < |a| && Split(a, sep) == [a[..i]] + Split(a[i + 1..], sep)
    ensures Split(a + [sep] + b, sep) == [a[..i]] + Split(a[i + 1..] + [sep] + b, sep)
  {
    i := IndexOf(a, sep);
    var s := a + [sep] + b;
    forall k | 0 <= k < i ensures s[k] != sep {
      assert s[k] == a[k];
    }
    assert s[i] == a[i];
    SplitAtFirst(s, sep, i);
    assert s[..i] == a[..i];
    assert s[i + 1..] == a[i + 1..] + [sep] + b;
  }

  /** A delimiter cuts the text into the segments on either side of it. */
  lemma {:induction false} SplitAround(a: string, b: string, sep: char)
    ensures Split(a + [sep] + b, sep) == Split(a, sep) + Split(b, sep)
    decreases |a|
  {
    if sep !in a {
      SplitAroundPlain(a, b, sep);
    } else {
      var i := SplitAroundCut(a, b, sep);
      SplitAround(a[i + 1..], b, sep);
    }
  }

  /** Splitting undoes joining segments that do not contain the delimiter. */
  lemma {:induction false} SplitJoin(parts: seq<string>, sep: char)
    requires |parts| >= 1
    requires forall i :: 0 <= i < |parts| ==> sep !in parts[i]
    ensures Split(Join(parts, sep), sep) == parts
    decreases |parts|
  {
    var head := parts[0];
    assert Split(head, sep) == [head];
    if |parts| > 1 {
      var rest := parts[1..];
      SplitJoin(rest, sep);
      assert Join(parts, sep) == head + [sep] + Join(rest, sep);
      SplitAround(head, Join(rest, sep), sep);
      assert parts == [head] + rest;
    }
  }

  /** `String.Join("", parts)`: the parts glued together with nothing between them; the first part is a prefix. */
  function Concat(parts: seq<string>): (text: string)
    ensures parts != [] ==> parts[0] <= text
  {
    if parts == [] then "" else parts[0] + Concat(parts[1..])
  }

  /** The joined text is empty exactly when every part is. */
  lemma {:induction false} ConcatEmpty(parts: seq<string>)
    ensures Concat(parts) == "" <==> forall i :: 0 <= i < |parts| ==> parts[i] == ""
    decreases |parts|
  {
    if parts != [] {
      ConcatEmpty(parts[1..]);
      assert forall i :: 1 <= i < |parts| ==> parts[1..][i - 1] == parts[i];
    }
  }

  /** Appending one more part appends its text. */
  lemma {:induction false} ConcatSnoc(parts: seq<string>, last: string)
    ensures Concat(parts + [last]) == Concat(parts) + last
    decreases |parts|
  {
    if parts == [] {
      assert parts + [last] == [last];
    } else {
      assert (parts + [last])[1..] == parts[1..] + [last];
      ConcatSnoc(parts[1..], last);
    }
  }

  /** The `StringSplitOptions.RemoveEmptyEntries` filter. */
  function RemoveEmpty(parts: seq<string>): (kept: seq<string>)
    ensures |kept| <= |parts|
    ensures forall i :: 0 <= i < |kept| ==> kept[i] != ""
    ensures forall i :: 0 <= i < |parts| && parts[i] != "" ==> parts[i] in kept
  {
    if parts == [] then []
    else if parts[0] == "" then RemoveEmpty(parts[1..])
    else [parts[0]] + RemoveEmpty(parts[1..])
  }

  lemma {:induction false} RemoveEmptyAppend(a: seq<string>, b: seq<string>)
    ensures RemoveEmpty(a + b) == RemoveEmpty(a) + RemoveEmpty(b)
    decreases |a|
  {
    if a != [] {
      assert (a + b)[0] == a[0];
      assert (a + b)[1..] == a[1..] + b;
      RemoveEmptyAppend(a[1..], b);
      if a[0] != "" {
        assert [a[0]] + (RemoveEmpty(a[1..]) + RemoveEmpty(b)) == ([a[0]] + RemoveEmpty(a[1..])) + RemoveEmpty(b);
      }
    } else {
      assert a + b == b;
    }
  }

  /** The filter decides entry by entry: an empty entry is dropped and any other is kept. */
  lemma RemoveEmptySingle(s: string)
    ensures RemoveEmpty([s]) == if s == "" then [] else [s]
  {
  }

  /**
   * A non-empty entry is kept in its place: the kept entries are those
   * before it, then it, then those after it.
   */
  lemma RemoveEmptyKeepsInOrder(parts: seq<string>, i: nat)
    requires i < |parts| && parts[i] != ""
    ensures RemoveEmpty(parts) == RemoveEmpty(parts[..i]) + [parts[i]] + RemoveEmpty(parts[i + 1..])
  {
    var before, here, after := parts[..i], [parts[i]], parts[i + 1..];
    assert parts == before + (here + after);
    RemoveEmptyAppend(before, here + after);
    RemoveEmptyAppend(here, after);
    RemoveEmptySingle(parts[i]);
    assert RemoveEmpty(here) == here;
  }

  /** `text.Split('\n', StringSplitOptions.RemoveEmptyEntries)`: every line is non-empty and holds no newline. */
  function Lines(text: string): (lines: seq<string>)
    ensures forall i :: 0 <= i < |lines| ==> lines[i] != "" && '\n' !in lines[i]
  {
    RemoveEmptyKeepsAbsent(Split(text, '\n'), '\n');
    RemoveEmpty(Split(text, '\n'))
  }

  /** Filtering keeps only entries that were there: a character no entry had is in no kept entry. */
  lemma {:induction false} RemoveEmptyKeepsAbsent(parts: seq<string>, c: char)
    requires forall i :: 0 <= i < |parts| ==> c !in parts[i]
    ensures forall i :: 0 <= i < |RemoveEmpty(parts)| ==> c !in RemoveEmpty(parts)[i]
    decreases |parts|
  {
    if parts != [] {
      RemoveEmptyKeepsAbsent(parts[1..], c);
    }
  }

  /** A text with no characters splits into no lines. */
  lemma LinesOfEmpty()
    ensures Lines("") == []
  {
    assert Split("", '\n') == [""];
  }

  /** A non-empty text without a newline is exactly one line. */
  lemma LinesOfSingleLine(text: string)
    requires text != "" && '\n' !in text
    ensures Lines(text) == [text]
  {
    assert RemoveEmpty([text]) == [text] + RemoveEmpty([]);
  }

  /** The lines of two texts glued by a newline are the lines of each. */
  lemma LinesAround(a: string, b: string)
    ensures Lines(a + "\n" + b) == Lines(a) + Lines(b)
  {
    SplitAround(a, b, '\n');
    RemoveEmptyAppend(Split(a, '\n'), Split(b, '\n'));
  }

  /** The text is empty or its last character is a newline. */
  predicate EndsLine(s: string)
  {
    s == "" || s[|s| - 1] == '\n'
  }

  /** Concatenation after a complete line neither merges nor splits lines. */
  lemma LinesAtBoundary(a: string, b: string)
    requires EndsLine(a)
    ensures Lines(a + b) == Lines(a) + Lines(b)
  {
    if a == "" {
      LinesOfEmpty();
      assert a + b == b;
    } else {
      var front := a[..|a| - 1];
      assert a == front + "\n" + "";
      assert a + b == front + "\n" + b;
      LinesAround(front, b);
      LinesAround(front, "");
      LinesOfEmpty();
    }
  }

  /**
   * `Char.IsWhiteSpace`: the characters of Unicode's White_Space property.
   * Among ASCII characters these are space, tab, line feed, vertical tab,
   * form feed and carriage return; in the rest of Latin-1 they are NEL and
   * the no-break space; none lies above U+3000.
   */
  function IsWhiteSpace(c: char): (ws: bool)
    ensures c < '\U{0080}' ==> (ws <==> c in " \t\n\r" || c == '\U{000B}' || c == '\U{000C}')
    ensures '\U{0080}' <= c < '\U{0100}' ==> (ws <==> c == '\U{0085}' || c == '\U{00A0}')
    ensures ws ==> c <= '\U{3000}'
  {
    || c == ' '
    || ('\t' <= c <= '\r')
    || c == '\U{0085}' || c == '\U{00A0}' || c == '\U{1680}'
    || ('\U{2000}' <= c <= '\U{200A}')
    || c == '\U{2028}' || c == '\U{2029}' || c == '\U{202F}' || c == '\U{205F}' || c == '\U{3000}'
  }

  /** `String.IsNullOrWhiteSpace`: a text is blank exactly when every character is white space. */
  function IsBlank(s: string): (blank: bool)
    ensures blank <==> forall i :: 0 <= i < |s| ==> IsWhiteSpace(s[i])
    decreases |s|
  {
    if s == [] then true
    else
      assert forall i :: 1 <= i < |s| ==> s[1..][i - 1] == s[i];
      IsWhiteSpace(s[0]) && IsBlank(s[1..])
  }

  /** `s.TrimEnd(c)`: removes every trailing occurrence of `c`. */
  function TrimEnd(s: string, c: char): (r: string)
    ensures r <= s
    ensures r == "" || r[|r| - 1] != c
    ensures forall i :: |r| <= i < |s| ==> s[i] == c
    decreases |s|
  {
    if |s| > 0 && s[|s| - 1] == c then TrimEnd(s[..|s| - 1], c) else s
  }

  /** The three properties of `TrimEnd` determine its result. */
  lemma TrimEndUnique(s: string, c: char, r: string)
    requires r <= s
    requires r == "" || r[|r| - 1] != c
    requires forall i :: |r| <= i < |s| ==> s[i] == c
    ensures r == TrimEnd(s, c)
  {
    var t := TrimEnd(s, c);
    if |r| < |t| {
      assert false;
    } else if |t| < |r| {
      assert false;
    }
  }

  /** Trimming twice changes nothing more than trimming once. */
  lemma TrimEndIdempotent(s: string, c: char)
    ensures TrimEnd(TrimEnd(s, c), c) == TrimEnd(s, c)
  {
  }
}
