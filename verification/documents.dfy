/** Splitting a YAML stream into documents, against the writer that prints one. Document markers: section 9.1.2 of YAML 1.2.2. */
module Documents {

  datatype Result<T> = Ok(value: T) | Err(separator: string)

  const MARK: string := "\n---"

  // ---------------------------------------------------------------- separators: \n---.*\n

  /** Where a newline comes at or after from, or the length when none does. */
  function NextNewline(t: string, from: nat): (k: nat)
    requires from <= |t|
    ensures from <= k <= |t|
    ensures k < |t| ==> t[k] == '\n'
    ensures forall i :: from <= i < k ==> t[i] != '\n'
    decreases |t| - from
  {
    if from == |t| || t[from] == '\n' then from else NextNewline(t, from + 1)
  }

  predicate MarkAt(t: string, i: nat) {
    i + 4 <= |t| && t[i..i + 4] == MARK
  }

  /** A separator starts at i. */
  predicate MatchAt(t: string, i: nat) {
    MarkAt(t, i) && NextNewline(t, i + 4) < |t|
  }

  /** The leftmost separator at or after from, or the length when there is none. */
  function FirstMatch(t: string, from: nat): (i: nat)
    requires from <= |t|
    ensures from <= i <= |t|
    ensures i < |t| ==> MatchAt(t, i)
    ensures forall j :: from <= j < i ==> !MatchAt(t, j)
    decreases |t| - from
  {
    if from == |t| || MatchAt(t, from) then from else FirstMatch(t, from + 1)
  }

  function MatchEnd(t: string, i: nat): (e: nat)
    requires MatchAt(t, i)
    ensures i + 5 <= e <= |t|
  {
    NextNewline(t, i + 4) + 1
  }

  predicate IsSpace(c: char) {
    || '\t' <= c <= '\r' || c == ' ' || c == '\U{0085}' || c == '\U{00A0}' || c == '\U{1680}'
    || '\U{2000}' <= c <= '\U{200A}' || c == '\U{2028}' || c == '\U{2029}' || c == '\U{202F}' || c == '\U{205F}' || c == '\U{3000}'
  }

  /** What follows the dashes of a separator starts with something other than a comment. */
  predicate BadRest(rest: string) {
    rest != [] && if IsSpace(rest[0]) then BadRest(rest[1..]) else rest[0] != '#'
  }

  predicate BadSeparator(separator: string) {
    |separator| >= 4 && BadRest(separator[4..])
  }

  /** The white space of Unicode. */
  lemma SpacesAre(c: char)
    ensures IsSpace(c) <==>
              || c in {'\t', '\n', '\U{000B}', '\U{000C}', '\r', ' ', '\U{0085}', '\U{00A0}', '\U{1680}'}
              || '\U{2000}' <= c <= '\U{200A}'
              || c in {'\U{2028}', '\U{2029}', '\U{202F}', '\U{205F}', '\U{3000}'}
  {
  }

  lemma {:induction false} BadRestIff(rest: string)
    ensures BadRest(rest) <==>
              exists i :: 0 <= i < |rest| && !IsSpace(rest[i]) && rest[i] != '#' && forall j :: 0 <= j < i ==> IsSpace(rest[j])
  {
    if rest != [] && IsSpace(rest[0]) {
      BadRestIff(rest[1..]);
      if i :| 0 <= i < |rest[1..]| && !IsSpace(rest[1..][i]) && rest[1..][i] != '#' && forall j :: 0 <= j < i ==> IsSpace(rest[1..][j]) {
        assert rest[i + 1] == rest[1..][i];
        assert forall j :: 1 <= j < i + 1 ==> rest[j] == rest[1..][j - 1];
      }
      if i :| 0 <= i < |rest| && !IsSpace(rest[i]) && rest[i] != '#' && forall j :: 0 <= j < i ==> IsSpace(rest[j]) {
        assert rest[1..][i - 1] == rest[i];
        assert forall j :: 0 <= j < i - 1 ==> rest[1..][j] == rest[j + 1];
      }
    }
  }

  /** A separator is bad exactly when the first character after its dashes that is no white space is there and is no #. */
  lemma BadSeparatorIff(separator: string)
    requires |separator| >= 4
    ensures BadSeparator(separator) <==>
              exists i :: 4 <= i < |separator| && !IsSpace(separator[i]) && separator[i] != '#'
                          && forall j :: 4 <= j < i ==> IsSpace(separator[j])
  {
    var rest := separator[4..];
    BadRestIff(rest);
    if i :| 0 <= i < |rest| && !IsSpace(rest[i]) && rest[i] != '#' && forall j :: 0 <= j < i ==> IsSpace(rest[j]) {
      assert separator[i + 4] == rest[i];
      assert forall j :: 4 <= j < i + 4 ==> separator[j] == rest[j - 4];
    }
    if i :| 4 <= i < |separator| && !IsSpace(separator[i]) && separator[i] != '#' && forall j :: 4 <= j < i ==> IsSpace(separator[j]) {
      assert rest[i - 4] == separator[i];
      assert forall j :: 0 <= j < i - 4 ==> rest[j] == separator[j + 4];
    }
  }

  // ---------------------------------------------------------------- specification

  predicate Splits(t: string) {
    FirstMatch(t, 0) < |t|
  }

  /** What comes before the first separator, that separator, and what follows it. */
  function Head(t: string): string
    requires Splits(t)
  {
    t[..FirstMatch(t, 0)]
  }

  function Separator(t: string): string
    requires Splits(t)
  {
    t[FirstMatch(t, 0)..MatchEnd(t, FirstMatch(t, 0))]
  }

  function Tail(t: string): (r: string)
    requires Splits(t)
    ensures |r| < |t|
  {
    t[MatchEnd(t, FirstMatch(t, 0))..]
  }

  /** The separators of t, leftmost first. */
  function Separators(t: string): seq<string>
    decreases |t|
  {
    if Splits(t) then [Separator(t)] + Separators(Tail(t)) else []
  }

  /** What is between them. */
  function Pieces(t: string): (ps: seq<string>)
    ensures |ps| > 0
    decreases |t|
  {
    if Splits(t) then [Head(t)] + Pieces(Tail(t)) else [t]
  }

  function Interleave(ps: seq<string>, separators: seq<string>): string {
    if ps == [] then "" else ps[0] + (if separators == [] then "" else separators[0] + Interleave(ps[1..], separators[1..]))
  }

  lemma Cut(t: string)
    requires Splits(t)
    ensures t == Head(t) + (Separator(t) + Tail(t))
  {
    var i := FirstMatch(t, 0);
    var e := MatchEnd(t, i);
    assert t == t[..i] + (t[i..e] + t[e..]);
  }

  /** Pieces and separators rebuild the text. */
  lemma {:induction false} PiecesRebuild(t: string)
    ensures |Pieces(t)| == |Separators(t)| + 1
    ensures Interleave(Pieces(t), Separators(t)) == t
    decreases |t|
  {
    if Splits(t) {
      var ps, xs := Pieces(Tail(t)), Separators(Tail(t));
      PiecesRebuild(Tail(t));
      Cut(t);
      assert ([Head(t)] + ps)[1..] == ps && ([Separator(t)] + xs)[1..] == xs;
    } else {
      assert [t][0] == t;
    }
  }

  /** A mark before the first separator is not followed by a newline that would make it one. */
  lemma HeadClean(t: string, j: nat)
    requires Splits(t)
    ensures !MarkAt(Head(t), j)
  {
    var i := FirstMatch(t, 0);
    if MarkAt(Head(t), j) {
      assert t[..i][j..j + 4] == t[j..j + 4];
      assert t[i] == '\n' by {
        assert t[i..i + 4][0] == t[i];
      }
      assert MatchAt(t, j);
    }
  }

  /** No piece holds a mark that the rest of the text would turn into a separator. */
  lemma {:induction false} PiecesClean(t: string, k: nat, j: nat)
    requires k < |Pieces(t)| && MarkAt(Pieces(t)[k], j)
    ensures k == |Pieces(t)| - 1 && NextNewline(Pieces(t)[k], j + 4) == |Pieces(t)[k]|
    decreases |t|
  {
    if Splits(t) {
      if k == 0 {
        HeadClean(t, j);
      } else {
        assert Pieces(t)[k] == Pieces(Tail(t))[k - 1];
        PiecesClean(Tail(t), k - 1, j);
      }
    } else {
      assert !MatchAt(t, j);
    }
  }

  predicate IsLine(x: string) {
    |x| > 4 && x[..4] == "\n---" && x[|x| - 1] == '\n' && forall i :: 4 <= i < |x| - 1 ==> x[i] != '\n'
  }

  lemma SeparatorIsLine(t: string, i: nat)
    requires MatchAt(t, i)
    ensures IsLine(t[i..MatchEnd(t, i)])
  {
    var e := MatchEnd(t, i);
    var x := t[i..e];
    assert x[..4] == t[i..i + 4];
    assert x[|x| - 1] == t[e - 1];
    forall j | 4 <= j < |x| - 1 ensures x[j] != '\n' {
      assert x[j] == t[i + j];
    }
  }

  lemma {:induction false} AllLines(t: string)
    ensures forall x :: x in Separators(t) ==> IsLine(x)
    decreases |t|
  {
    if Splits(t) {
      SeparatorIsLine(t, FirstMatch(t, 0));
      AllLines(Tail(t));
    }
  }

  /** What is cut out are whole lines of dashes, with the newlines around them. */
  lemma SeparatorsAreLines(t: string, x: string)
    requires x in Separators(t)
    ensures |x| > 4 && x[..4] == "\n---" && x[|x| - 1] == '\n' && forall i :: 4 <= i < |x| - 1 ==> x[i] != '\n'
  {
    AllLines(t);
  }

  /** No such line is left in a piece. */
  lemma NoLineLeft(t: string, k: nat, i: nat, e: nat)
    requires k < |Pieces(t)| && i + 4 <= e < |Pieces(t)[k]|
    ensures !(Pieces(t)[k][i..i + 4] == "\n---" && Pieces(t)[k][e] == '\n')
  {
    var p := Pieces(t)[k];
    if p[i..i + 4] == "\n---" && p[e] == '\n' {
      assert MarkAt(p, i);
      PiecesClean(t, k, i);
    }
  }

  // ---------------------------------------------------------------- SplitDocuments

  /** The location in s of the first separator from position from on. */
  function FirstLocation(s: string, from: nat): (loc: (nat, nat))
    requires from <= |s| && Splits(s[from..])
    ensures from <= loc.0 < loc.1 <= |s|
  {
    var i := FirstMatch(s[from..], 0);
    (from + i, from + MatchEnd(s[from..], i))
  }

  /** All locations from there on. */
  function Locations(s: string, from: nat): seq<(nat, nat)>
    requires from <= |s|
    decreases |s| - from
  {
    if Splits(s[from..]) then [FirstLocation(s, from)] + Locations(s, FirstLocation(s, from).1) else []
  }

  /** The first location cuts the rest of the text into head, separator and tail. */
  lemma LocationCuts(s: string, from: nat)
    requires from <= |s| && Splits(s[from..])
    ensures var loc := FirstLocation(s, from);
            && s[from..loc.0] == Head(s[from..])
            && s[loc.0..loc.1] == Separator(s[from..])
            && s[loc.1..] == Tail(s[from..])
  {
    var i := FirstMatch(s[from..], 0);
    var e := MatchEnd(s[from..], i);
    SliceOfRest(s, from, i, e);
  }

  lemma SliceOfRest(s: string, from: nat, i: nat, e: nat)
    requires from <= |s| && i <= e <= |s[from..]|
    ensures s[from..from + i] == s[from..][..i]
    ensures s[from + i..from + e] == s[from..][i..e]
    ensures s[from + e..] == s[from..][e..]
  {
  }

  predicate AllGood(separators: seq<string>) {
    forall x :: x in separators ==> !BadSeparator(x)
  }

  /** The separator is bad and those before it are not. */
  predicate FirstBad(separators: seq<string>, separator: string) {
    exists k :: 0 <= k < |separators| && separators[k] == separator && BadSeparator(separator) && AllGood(separators[..k])
  }

  lemma GoodBefore(separators: seq<string>, k: int, j: int)
    requires 0 <= j < k <= |separators| && AllGood(separators[..k])
    ensures !BadSeparator(separators[j])
  {
    assert separators[..k][j] == separators[j];
  }

  lemma FirstBadUnique(separators: seq<string>, a: string, b: string)
    requires FirstBad(separators, a) && FirstBad(separators, b)
    ensures a == b
  {
    var j :| 0 <= j < |separators| && separators[j] == a && BadSeparator(a) && AllGood(separators[..j]);
    var k :| 0 <= k < |separators| && separators[k] == b && BadSeparator(b) && AllGood(separators[..k]);
    if j < k {
      GoodBefore(separators, k, j);
    } else if k < j {
      GoodBefore(separators, j, k);
    }
  }

  /** What is done so far and what the rest still gives make up the whole. */
  ghost predicate SplitSoFar(s: string, prev: nat, docs: seq<string>, good: seq<string>) {
    && prev <= |s|
    && Pieces(s) == docs + Pieces(s[prev..])
    && Separators(s) == good + Separators(s[prev..])
  }

  lemma TakeOne(all: seq<string>, done: seq<string>, next: string, rest: seq<string>)
    requires all == done + ([next] + rest)
    ensures all == done + [next] + rest && all[..|done|] == done && all[|done|] == next
  {
  }

  lemma SplitOnce(s: string, prev: nat, docs: seq<string>, good: seq<string>)
    requires SplitSoFar(s, prev, docs, good) && Splits(s[prev..])
    ensures var loc := FirstLocation(s, prev);
            && Separators(s)[..|good|] == good
            && |good| < |Separators(s)| && Separators(s)[|good|] == s[loc.0..loc.1]
            && SplitSoFar(s, loc.1, docs + [s[prev..loc.0]], good + [s[loc.0..loc.1]])
  {
    LocationCuts(s, prev);
    var t := s[prev..];
    TakeOne(Pieces(s), docs, Head(t), Pieces(Tail(t)));
    TakeOne(Separators(s), good, Separator(t), Separators(Tail(t)));
  }

  /** Splits at every separator; the first bad one is the error. The empty text has no documents. */
  method SplitDocuments(s: string) returns (r: Result<seq<string>>)
    ensures s == "" ==> r == Ok([])
    ensures s != "" && AllGood(Separators(s)) ==> r == Ok(Pieces(s))
    ensures r.Ok? && s != "" ==> AllGood(Separators(s))
    ensures r.Err? ==>
              exists k :: 0 <= k < |Separators(s)| && Separators(s)[k] == r.separator
                          && BadSeparator(r.separator) && AllGood(Separators(s)[..k])
  {
    var docs: seq<string> := [];
    if |s| > 0 {
      var locations := Locations(s, 0);
      var prev: nat := 0;
      ghost var good: seq<string> := [];
      assert s[0..] == s;
      for k := 0 to |locations|
        invariant SplitSoFar(s, prev, docs, good)
        invariant locations[k..] == Locations(s, prev)
        invariant AllGood(good)
      {
        var loc := locations[k];
        assert locations[k..][0] == loc && locations[k..][1..] == locations[k + 1..];
        assert loc == FirstLocation(s, prev);
        SplitOnce(s, prev, docs, good);
        var separator := s[loc.0..loc.1];
        if BadSeparator(separator) {
          return Err(separator);
        }
        docs := docs + [s[prev..loc.0]];
        good := good + [separator];
        prev := loc.1;
      }
      assert !Splits(s[prev..]);
      assert Pieces(s[prev..]) == [s[prev..]] && Separators(s[prev..]) == [];
      docs := docs + [s[prev..]];
    }
    return Ok(docs);
  }

  // ---------------------------------------------------------------- line endings

  /** Windows line ends become newlines. */
  function Normalize(s: string): string {
    if s == "" then ""
    else if |s| > 1 && s[0] == '\r' && s[1] == '\n' then "\n" + Normalize(s[2..])
    else [s[0]] + Normalize(s[1..])
  }

  predicate HasCrLf(s: string) {
    exists i :: 0 < i < |s| && s[i - 1] == '\r' && s[i] == '\n'
  }

  lemma {:induction false} NormalizeShrinks(s: string)
    ensures HasCrLf(s) ==> |Normalize(s)| < |s|
    ensures !HasCrLf(s) ==> Normalize(s) == s
  {
    if s != "" {
      if |s| > 1 && s[0] == '\r' && s[1] == '\n' {
        NormalizeShrinks(s[2..]);
      } else {
        NormalizeShrinks(s[1..]);
        assert forall i :: 0 < i < |s| - 1 ==> s[1..][i - 1] == s[i] && s[1..][i] == s[i + 1];
        if HasCrLf(s) {
          var i :| 0 < i < |s| && s[i - 1] == '\r' && s[i] == '\n';
          assert s[1..][i - 2] == s[i - 1] && s[1..][i - 1] == s[i];
        }
        assert s == [s[0]] + s[1..];
      }
    }
  }

  /** The first Windows line end becomes a newline and nothing before it changes. */
  lemma {:induction false} NormalizeLine(line: string, rest: string)
    requires forall i :: 0 < i < |line| ==> !(line[i - 1] == '\r' && line[i] == '\n')
    ensures Normalize(line + "\r\n" + rest) == line + "\n" + Normalize(rest)
  {
    var t := line + "\r\n" + rest;
    if line == "" {
      assert t[2..] == rest;
    } else {
      assert forall i :: 0 < i < |line[1..]| ==> line[1..][i - 1] == line[i] && line[1..][i] == line[i + 1];
      NormalizeLine(line[1..], rest);
      assert t[1..] == line[1..] + "\r\n" + rest;
      assert t[0] == line[0] && t[1] == if |line| > 1 then line[1] else '\r';
      assert line + "\n" == [line[0]] + (line[1..] + "\n");
    }
  }

  /** A text without a Windows line end stays as it is. */
  lemma NormalizeNothing(line: string)
    requires forall i :: 0 < i < |line| ==> !(line[i - 1] == '\r' && line[i] == '\n')
    ensures Normalize(line) == line
  {
    NormalizeShrinks(line);
  }

  function JoinedBy(lines: seq<string>, end: string): string {
    if lines == [] then "" else if |lines| == 1 then lines[0] else lines[0] + end + JoinedBy(lines[1..], end)
  }

  /** Lines that hold no Windows line end. */
  predicate PlainLines(lines: seq<string>) {
    forall k, i :: 0 <= k < |lines| && 0 < i < |lines[k]| ==> !(lines[k][i - 1] == '\r' && lines[k][i] == '\n')
  }

  /** Lines joined in the way of Windows become the same lines joined by newlines. */
  lemma {:induction false} NormalizeJoined(lines: seq<string>)
    requires PlainLines(lines)
    ensures Normalize(JoinedBy(lines, "\r\n")) == JoinedBy(lines, "\n")
  {
    if lines != [] {
      var line, rest := lines[0], lines[1..];
      NormalizeNothing(line);
      NormalizeLine(line, JoinedBy(rest, "\r\n"));
      if |lines| > 1 {
        NormalizeJoined(rest);
      }
    }
  }

  /** Lines joined by newlines stay, unless one of them makes a Windows line end with its newline. */
  lemma {:induction false} NormalizeUnix(lines: seq<string>)
    requires PlainLines(lines)
    requires forall k :: 0 <= k < |lines| - 1 && lines[k] != "" ==> lines[k][|lines[k]| - 1] != '\r'
    ensures Normalize(JoinedBy(lines, "\n")) == JoinedBy(lines, "\n")
  {
    if lines != [] {
      NormalizeNothing(lines[0]);
      if |lines| > 1 {
        NormalizeUnix(lines[1..]);
        NormalizeNewline(lines[0], JoinedBy(lines[1..], "\n"));
      }
    }
  }

  lemma {:induction false} NormalizeNewline(line: string, rest: string)
    requires forall i :: 0 < i < |line| ==> !(line[i - 1] == '\r' && line[i] == '\n')
    requires line != "" ==> line[|line| - 1] != '\r'
    ensures Normalize(line + "\n" + rest) == line + "\n" + Normalize(rest)
  {
    var t := line + "\n" + rest;
    if line == "" {
      assert t[1..] == rest;
    } else {
      assert forall i :: 0 < i < |line[1..]| ==> line[1..][i - 1] == line[i] && line[1..][i] == line[i + 1];
      assert line[1..] == "" || line[1..][|line| - 2] == line[|line| - 1];
      NormalizeNewline(line[1..], rest);
      assert t[1..] == line[1..] + "\n" + rest;
      assert t[0] == line[0] && t[1] == if |line| > 1 then line[1] else '\n';
      assert line == [line[0]] + line[1..];
    }
  }

  // ---------------------------------------------------------------- writer and reader

  function Printed(doc: string): string {
    "---\n" + doc + "\n"
  }

  function Emit(docs: seq<string>): string {
    if docs == [] then "" else Printed(docs[0]) + Emit(docs[1..])
  }

  function OfKey(key: string, store: map<string, seq<string>>): seq<string> {
    if key in store then store[key] else []
  }

  /** The documents stored under the keys, in key order; a missing key has none. */
  function DocumentsOf(keys: seq<string>, store: map<string, seq<string>>): seq<string> {
    if keys == [] then []
    else OfKey(keys[0], store) + DocumentsOf(keys[1..], store)
  }

  lemma {:induction false} EmitAppend(a: seq<string>, b: seq<string>)
    ensures Emit(a + b) == Emit(a) + Emit(b)
  {
    if a == [] {
      assert a + b == b;
    } else {
      assert (a + b)[1..] == a[1..] + b;
      EmitAppend(a[1..], b);
    }
  }

  lemma {:induction false} DocumentsOfAppend(a: seq<string>, key: string, store: map<string, seq<string>>)
    ensures DocumentsOf(a + [key], store) == DocumentsOf(a, store) + OfKey(key, store)
  {
    if a == [] {
      assert a + [key] == [key];
    } else {
      assert (a + [key])[1..] == a[1..] + [key];
      DocumentsOfAppend(a[1..], key, store);
    }
  }

  /** What is written, one document and one key at a time. */
  lemma WrittenAre(doc: string, key: string, keys: seq<string>, docs: seq<string>, store: map<string, seq<string>>)
    ensures Emit([]) == "" && Emit([doc] + docs) == "---\n" + doc + "\n" + Emit(docs)
    ensures DocumentsOf([], store) == []
    ensures DocumentsOf([key] + keys, store) == (if key in store then store[key] else []) + DocumentsOf(keys, store)
  {
    assert ([doc] + docs)[1..] == docs && ([key] + keys)[1..] == keys;
  }

  /** Appends the printed documents of one key to what was written. */
  method WriteDocuments(written: string, docs: seq<string>) returns (out: string)
    ensures out == written + Emit(docs)
  {
    out := written;
    for j := 0 to |docs|
      invariant out == written + Emit(docs[..j])
    {
      assert docs[..j + 1] == docs[..j] + [docs[j]];
      EmitAppend(docs[..j], [docs[j]]);
      assert Emit([docs[j]]) == Printed(docs[j]) + "";
      out := out + Printed(docs[j]);
    }
    assert docs[..|docs|] == docs;
  }

  lemma KeyWritten(written: string, a: seq<string>, key: string, store: map<string, seq<string>>)
    ensures written + Emit(DocumentsOf(a + [key], store))
            == written + Emit(DocumentsOf(a, store)) + Emit(OfKey(key, store))
  {
    DocumentsOfAppend(a, key, store);
    EmitAppend(DocumentsOf(a, store), OfKey(key, store));
  }

  /** The documents of each key in turn; a missing key is skipped. */
  method WriteKeys(written: string, keys: seq<string>, store: map<string, seq<string>>) returns (out: string)
    ensures out == written + Emit(DocumentsOf(keys, store))
  {
    out := written;
    for k := 0 to |keys|
      invariant out == written + Emit(DocumentsOf(keys[..k], store))
    {
      KeyWritten(written, keys[..k], keys[k], store);
      assert keys[..k + 1] == keys[..k] + [keys[k]];
      if keys[k] in store {
        out := WriteDocuments(out, store[keys[k]]);
      }
    }
    assert keys[..|keys|] == keys;
  }

  /** Prints all documents: those of the prioritized keys before the others. */
  method WriteSingle(prioritized: seq<string>, keys: seq<string>, store: map<string, seq<string>>) returns (out: string)
    ensures out == Emit(DocumentsOf(prioritized, store) + DocumentsOf(keys, store))
  {
    out := WriteKeys("", prioritized, store);
    out := WriteKeys(out, keys, store);
    EmitAppend(DocumentsOf(prioritized, store), DocumentsOf(keys, store));
  }

  /** Every document but the last gets back the newline that the split took. */
  function Restored(ps: seq<string>): seq<string> {
    seq(|ps|, i requires 0 <= i < |ps| => if i < |ps| - 1 then ps[i] + "\n" else ps[i])
  }

  method RestoreNewlines(values: array<string>)
    modifies values
    ensures values[..] == Restored(old(values[..]))
    ensures forall i :: 0 <= i < values.Length ==> values[i] == old(values[i]) + if i < values.Length - 1 then "\n" else ""
  {
    for i := 0 to values.Length
      invariant forall j :: 0 <= j < i ==> values[j] == Restored(old(values[..]))[j]
      invariant forall j :: i <= j < values.Length ==> values[j] == old(values[j])
    {
      if i != values.Length - 1 {
        values[i] := values[i] + "\n";
      }
    }
  }

  /** The texts that the reader hands to the parser. */
  method Read(input: string) returns (r: Result<seq<string>>)
    ensures Normalize(input) == "" ==> r == Ok([])
    ensures Normalize(input) != "" && AllGood(Separators(Normalize(input))) ==>
              r == Ok(Restored(Pieces(Normalize(input))))
    ensures Normalize(input) != "" && !AllGood(Separators(Normalize(input))) ==> r.Err?
    ensures r.Err? ==>
              exists k :: 0 <= k < |Separators(Normalize(input))| && Separators(Normalize(input))[k] == r.separator
                          && BadSeparator(r.separator) && AllGood(Separators(Normalize(input))[..k])
  {
    r := SplitDocuments(Normalize(input));
    if r.Ok? {
      var values := new string[|r.value|](i requires 0 <= i < |r.value| => r.value[i]);
      assert values[..] == r.value;
      RestoreNewlines(values);
      r := Ok(values[..]);
    }
  }

  /** Line ends of either kind make no difference to the reader. */
  method ReadJoined(lines: seq<string>) returns (windows: Result<seq<string>>, unix: Result<seq<string>>)
    requires forall k, i :: 0 <= k < |lines| && 0 < i < |lines[k]| ==> !(lines[k][i - 1] == '\r' && lines[k][i] == '\n')
    requires forall k :: 0 <= k < |lines| - 1 && lines[k] != "" ==> lines[k][|lines[k]| - 1] != '\r'
    ensures windows == unix
  {
    NormalizeJoined(lines);
    NormalizeUnix(lines);
    windows := Read(JoinedBy(lines, "\r\n"));
    unix := Read(JoinedBy(lines, "\n"));
    if windows.Err? && unix.Err? {
      FirstBadUnique(Separators(JoinedBy(lines, "\n")), windows.separator, unix.separator);
    }
  }

  // ---------------------------------------------------------------- round trip

  /** What reading back is to give: each document with its newline, the first also with the mark before it. */
  function ReadBack(docs: seq<string>): seq<string> {
    seq(|docs|, i requires 0 <= i < |docs| => (if i == 0 then "---\n" else "") + docs[i] + "\n")
  }

  predicate HasMark(d: string) {
    exists i :: 0 <= i < |d| && MarkAt(d, i)
  }

  predicate Unmarked(docs: seq<string>) {
    forall k :: 0 <= k < |docs| ==> !HasMark(docs[k])
  }

  /** The documents after the first dashes, printed. */
  function Body(docs: seq<string>): string
    requires docs != []
  {
    docs[0] + "\n" + if |docs| == 1 then "" else "---\n" + Body(docs[1..])
  }

  lemma {:induction false} EmitIsBody(docs: seq<string>)
    requires docs != []
    ensures Emit(docs) == "---\n" + Body(docs)
  {
    if |docs| > 1 {
      EmitIsBody(docs[1..]);
    } else {
      assert docs[1..] == [];
    }
  }

  /** In a printed body, marks start in a document or at its end. */
  lemma BodyMark(d: string, rest: string, i: nat)
    requires MarkAt(d + "\n" + rest, i) && i < |d|
    ensures MarkAt(d, i)
  {
    var t := d + "\n" + rest;
    forall j | 0 <= j < 4 ensures t[i + j] == MARK[j] {
      assert t[i..i + 4][j] == t[i + j];
    }
    assert t[|d|] == '\n';
    assert i + 4 <= |d|;
    assert t[i..i + 4] == d[i..i + 4];
  }

  lemma BodyClean(d: string, rest: string)
    requires !HasMark(d)
    ensures forall i :: 0 <= i < |d| ==> !MatchAt(d + "\n" + rest, i)
  {
    var t := d + "\n" + rest;
    forall i | 0 <= i < |d| ensures !MatchAt(t, i) {
      if MarkAt(t, i) {
        BodyMark(d, rest, i);
        assert HasMark(d);
      }
    }
  }

  /** The first separator of a text that starts with a document without marks is the printed one. */
  lemma FirstCut(d: string, rest: string)
    requires !HasMark(d)
    ensures var t := d + "\n---\n" + rest;
            Splits(t) && Head(t) == d && Separator(t) == "\n---\n" && Tail(t) == rest
  {
    var t := d + "\n---\n" + rest;
    BodyClean(d, "---\n" + rest);
    assert t == d + "\n" + ("---\n" + rest);
    assert t[|d|..|d| + 4] == MARK;
    assert t[|d| + 4] == '\n';
    assert MatchAt(t, |d|) && FirstMatch(t, 0) == |d| && MatchEnd(t, |d|) == |d| + 5;
    assert t[|d| + 5..] == rest;
    assert t[|d|..|d| + 5] == "\n---\n";
    assert t[..|d|] == d;
  }

  lemma LastCut(d: string)
    requires !HasMark(d)
    ensures !Splits(d + "\n")
  {
    BodyClean(d, "");
    assert d + "\n" + "" == d + "\n";
    assert !MatchAt(d + "\n", |d|);
  }

  lemma BodyCut(docs: seq<string>)
    requires |docs| > 1 && !HasMark(docs[0])
    ensures var t := Body(docs);
            Splits(t) && Head(t) == docs[0] && Separator(t) == "\n---\n" && Tail(t) == Body(docs[1..])
  {
    Glue(docs[0], Body(docs[1..]));
    FirstCut(docs[0], Body(docs[1..]));
  }

  lemma Glue(d: string, rest: string)
    ensures d + "\n" + ("---\n" + rest) == d + "\n---\n" + rest
    ensures d + "\n" + "" == d + "\n"
  {
  }

  /** The documents as they come out of a split: the last one with its newline. */
  function Parts(docs: seq<string>): seq<string>
    requires docs != []
  {
    if |docs| == 1 then [docs[0] + "\n"] else [docs[0]] + Parts(docs[1..])
  }

  lemma {:induction false} PartsAt(docs: seq<string>, k: nat)
    requires k < |docs|
    ensures |Parts(docs)| == |docs|
    ensures Parts(docs)[k] == if k == |docs| - 1 then docs[k] + "\n" else docs[k]
  {
    if |docs| > 1 {
      PartsAt(docs[1..], if k == 0 then 0 else k - 1);
    }
  }

  /** Splitting a body of documents without marks gives the documents, the last with its newline. */
  lemma {:induction false} BodySplits(docs: seq<string>)
    requires docs != [] && Unmarked(docs)
    ensures Pieces(Body(docs)) == Parts(docs)
    ensures forall x :: x in Separators(Body(docs)) ==> x == "\n---\n"
  {
    if |docs| == 1 {
      LastCut(docs[0]);
      Glue(docs[0], "");
    } else {
      BodyCut(docs);
      BodySplits(docs[1..]);
    }
  }

  function FirstMarked(docs: seq<string>): seq<string>
    requires docs != []
  {
    ["---\n" + docs[0]] + docs[1..]
  }

  lemma EmitIsMarkedBody(docs: seq<string>)
    requires docs != []
    ensures Emit(docs) == Body(FirstMarked(docs))
  {
    EmitIsBody(docs);
    assert FirstMarked(docs)[1..] == docs[1..];
    assert Body(FirstMarked(docs)) == "---\n" + Body(docs);
  }

  predicate StartsWithDashes(d: string) {
    |d| >= 3 && d[..3] == "---"
  }

  lemma Shifted(a: string, b: string, i: nat, e: nat)
    requires i <= e <= |b|
    ensures (a + b)[|a| + i..|a| + e] == b[i..e]
  {
  }

  lemma MarkedFirst(d: string)
    ensures HasMark("---\n" + d) <==> HasMark(d) || StartsWithDashes(d)
  {
    var m := "---\n" + d;
    if i :| 0 <= i < |m| && MarkAt(m, i) {
      assert m[i..i + 4][0] == m[i];
      assert i >= 3;
      if i == 3 {
        assert m[3..7][1..] == d[..3];
      } else {
        Shifted("---\n", d, i - 4, i);
        assert MarkAt(d, i - 4);
      }
    }
    if i :| 0 <= i < |d| && MarkAt(d, i) {
      Shifted("---\n", d, i, i + 4);
      assert MarkAt(m, i + 4);
    }
    if StartsWithDashes(d) {
      assert m[3..7] == "\n" + d[..3];
      assert MarkAt(m, 3);
    }
  }

  predicate Reads(docs: seq<string>)
    requires docs != []
  {
    var t := Normalize(Emit(docs));
    AllGood(Separators(t)) && Restored(Pieces(t)) == ReadBack(docs)
  }

  lemma GoodSeparators(separators: seq<string>)
    requires forall x :: x in separators ==> x == "\n---\n"
    ensures AllGood(separators)
  {
    assert "\n---\n"[4..] == "\n" && "\n"[1..] == "";
  }

  lemma RestoredParts(docs: seq<string>)
    requires docs != []
    ensures Restored(Parts(FirstMarked(docs))) == ReadBack(docs)
  {
    var marked := FirstMarked(docs);
    PartsAt(marked, 0);
    forall k | 0 <= k < |docs| ensures Restored(Parts(marked))[k] == ReadBack(docs)[k] {
      PartsAt(marked, k);
      assert ReadBack(docs)[k] == marked[k] + "\n";
    }
  }

  lemma UnmarkedReads(docs: seq<string>)
    requires docs != [] && Unmarked(FirstMarked(docs)) && !HasCrLf(Emit(docs))
    ensures Reads(docs)
  {
    NormalizeShrinks(Emit(docs));
    EmitIsMarkedBody(docs);
    BodySplits(FirstMarked(docs));
    GoodSeparators(Separators(Emit(docs)));
    RestoredParts(docs);
  }

  lemma ReadsUnmarked(docs: seq<string>, k: nat)
    requires docs != [] && Reads(docs) && k < |docs|
    ensures !HasMark(FirstMarked(docs)[k])
  {
    var d := FirstMarked(docs)[k];
    var ps := Pieces(Normalize(Emit(docs)));
    assert |Restored(ps)| == |ps| && |ReadBack(docs)| == |docs|;
    assert Restored(ps)[k] == ReadBack(docs)[k] == d + "\n";
    if i :| 0 <= i < |d| && MarkAt(d, i) {
      if k < |ps| - 1 {
        assert ps[k] + "\n" == d + "\n";
        assert ps[k] == (ps[k] + "\n")[..|ps[k]|] == d;
      } else {
        assert ps[k] == d + "\n";
        assert ps[k][i..i + 4] == d[i..i + 4];
        assert ps[k][|d|] == '\n';
      }
      PiecesClean(Normalize(Emit(docs)), k, i);
    }
  }

  lemma FirstMarkedUnmarked(docs: seq<string>)
    requires docs != []
    ensures Unmarked(FirstMarked(docs)) <==> Unmarked(docs) && !StartsWithDashes(docs[0])
  {
    var marked := FirstMarked(docs);
    MarkedFirst(docs[0]);
    assert forall k :: 1 <= k < |docs| ==> marked[k] == docs[k];
    assert marked[0] == "---\n" + docs[0];
  }

  function Total(texts: seq<string>): nat {
    if texts == [] then 0 else |texts[0]| + Total(texts[1..])
  }

  lemma {:induction false} PiecesTotal(t: string)
    ensures Total(Pieces(t)) + 5 * (|Pieces(t)| - 1) <= |t|
    decreases |t|
  {
    if Splits(t) {
      Cut(t);
      PiecesTotal(Tail(t));
      assert ([Head(t)] + Pieces(Tail(t)))[1..] == Pieces(Tail(t));
    }
  }

  lemma {:induction false} RestoredTotal(ps: seq<string>)
    requires ps != []
    ensures Total(Restored(ps)) == Total(ps) + |ps| - 1
  {
    if |ps| > 1 {
      assert Restored(ps)[1..] == Restored(ps[1..]);
      RestoredTotal(ps[1..]);
    } else {
      assert Restored(ps)[1..] == [];
    }
  }

  function Lines(docs: seq<string>): seq<string> {
    seq(|docs|, i requires 0 <= i < |docs| => docs[i] + "\n")
  }

  lemma {:induction false} LinesTotal(docs: seq<string>)
    ensures Total(Lines(docs)) + 4 * |docs| == |Emit(docs)|
  {
    if docs != [] {
      assert Lines(docs)[1..] == Lines(docs[1..]);
      LinesTotal(docs[1..]);
    }
  }

  lemma ReadBackTotal(docs: seq<string>)
    requires docs != []
    ensures Total(ReadBack(docs)) == Total(Lines(docs)) + 4
  {
    var r, l := ReadBack(docs), Lines(docs);
    forall k | 1 <= k < |docs| ensures r[k] == l[k] {
      assert "" + docs[k] + "\n" == docs[k] + "\n";
    }
    assert r[1..] == l[1..];
  }

  /** Reading back loses nothing but the dashes between the documents, so the reader found no carriage return to drop. */
  lemma ReadsWhole(docs: seq<string>)
    requires docs != [] && Reads(docs)
    ensures !HasCrLf(Emit(docs))
  {
    var t := Normalize(Emit(docs));
    PiecesTotal(t);
    RestoredTotal(Pieces(t));
    assert |Restored(Pieces(t))| == |Pieces(t)| && |ReadBack(docs)| == |docs|;
    ReadBackTotal(docs);
    LinesTotal(docs);
    NormalizeShrinks(Emit(docs));
  }

  predicate CleanEnds(docs: seq<string>) {
    forall k :: 0 <= k < |docs| ==> !HasCrLf(docs[k] + "\n")
  }

  lemma {:induction false} EmitCrLf(docs: seq<string>)
    ensures HasCrLf(Emit(docs)) <==> !CleanEnds(docs)
  {
    if docs != [] {
      var line := docs[0] + "\n";
      var rest := Emit(docs[1..]);
      EmitCrLf(docs[1..]);
      assert Emit(docs) == "---\n" + line + rest;
      JoinCrLf(line, rest);
      assert CleanEnds(docs) <==> !HasCrLf(line) && CleanEnds(docs[1..]) by {
        assert forall k :: 1 <= k < |docs| ==> docs[k] == docs[1..][k - 1];
        assert forall k :: 0 <= k < |docs| - 1 ==> docs[1..][k] == docs[k + 1];
      }
    }
  }

  lemma JoinCrLf(line: string, rest: string)
    requires line != "" && line[|line| - 1] == '\n'
    ensures HasCrLf("---\n" + line + rest) <==> HasCrLf(line) || HasCrLf(rest)
  {
    var t := "---\n" + line + rest;
    var n := |line| + 4;
    assert forall i :: 4 <= i < n ==> t[i] == line[i - 4];
    assert forall i :: n <= i < |t| ==> t[i] == rest[i - n];
    if i :| 0 < i < |t| && t[i - 1] == '\r' && t[i] == '\n' {
      assert i > 4 && i != n;
      if i < n {
        assert line[i - 5] == '\r' && line[i - 4] == '\n';
      } else {
        assert rest[i - n - 1] == '\r' && rest[i - n] == '\n';
      }
    }
    if i :| 0 < i < |line| && line[i - 1] == '\r' && line[i] == '\n' {
      assert t[i + 3] == '\r' && t[i + 4] == '\n';
    }
    if i :| 0 < i < |rest| && rest[i - 1] == '\r' && rest[i] == '\n' {
      assert t[n + i - 1] == '\r' && t[n + i] == '\n';
    }
  }

  /**
   * Reading gives back what was printed exactly when no document holds a line of dashes, the first does not start with
   * one, and none holds or ends in what the reader takes for a Windows line end.
   */
  lemma RoundTripIff(docs: seq<string>)
    requires docs != []
    ensures Reads(docs) <==> Unmarked(docs) && !StartsWithDashes(docs[0]) && CleanEnds(docs)
  {
    FirstMarkedUnmarked(docs);
    EmitCrLf(docs);
    if Unmarked(FirstMarked(docs)) && CleanEnds(docs) {
      UnmarkedReads(docs);
    }
    if Reads(docs) {
      ReadsWhole(docs);
      forall k | 0 <= k < |docs| ensures !HasMark(FirstMarked(docs)[k]) {
        ReadsUnmarked(docs, k);
      }
    }
  }
}
