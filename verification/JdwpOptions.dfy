/** JDWP agent options: `key=value` entries separated by commas. What parsing and printing mean. */
module JdwpOptions {
  import opened Options

  datatype Entry = Entry(key: string, value: string)

  /** Keys in the order of their first insertion, and their values. */
  datatype Args = Args(keys: seq<string>, store: map<string, string>)

  const EMPTY := Args([], map[])

  predicate IsSpace(c: char) {
    c == ' ' || '\t' <= c <= '\r'
  }

  /** The pieces between commas; there is always at least one. */
  function Split(s: string): (r: seq<string>)
    ensures r != []
  {
    if s == "" then [""]
    else if s[0] == ',' then [""] + Split(s[1..])
    else var r := Split(s[1..]); [[s[0]] + r[0]] + r[1..]
  }

  function WithoutSpaces(w: string): string {
    if w == "" then "" else (if IsSpace(w[0]) then "" else [w[0]]) + WithoutSpaces(w[1..])
  }

  /** The position of the first `=`, or the length. */
  function FindEquals(w: string): (n: nat)
    ensures n <= |w| && (n < |w| ==> w[n] == '=') && '=' !in w[..n]
  {
    if w == "" || w[0] == '=' then 0 else 1 + FindEquals(w[1..])
  }

  /** The entry of a piece, if it is well formed. */
  function ParseEntry(piece: string): Option<Entry> {
    var w := WithoutSpaces(piece);
    var pos := FindEquals(w);
    if pos == |w| || w[|w| - 1] == '=' || w[0] == '=' then None
    else Some(Entry(w[..pos], w[pos + 1..]))
  }

  function Put(a: Args, key: string, value: string): Args {
    Args(if key in a.store then a.keys else a.keys + [key], a.store[key := value])
  }

  function PutPiece(a: Args, piece: string): Args {
    var e := ParseEntry(piece);
    if e.None? then a else Put(a, e.value.key, e.value.value)
  }

  function PutAll(a: Args, pieces: seq<string>): Args
    decreases |pieces|
  {
    if pieces == [] then a else PutAll(PutPiece(a, pieces[0]), pieces[1..])
  }

  function Parse(s: string): Args {
    PutAll(EMPTY, Split(s))
  }

  function Show(key: string, value: string): string {
    key + "=" + value
  }

  /** All entries, each followed by a comma. */
  function ShowAll(keys: seq<string>, store: map<string, string>): string
    requires forall k :: k in keys ==> k in store
    decreases |keys|
  {
    if keys == [] then ""
    else
      var last := |keys| - 1;
      ShowAll(keys[..last], store) + Show(keys[last], store[keys[last]]) + ","
  }

  ghost function Join(a: Args): string
    requires Valid(a)
  {
    var s := ShowAll(a.keys, a.store);
    if |s| >= 2 then s[..|s| - 1] else s
  }

  predicate NoSpaces(w: string) { forall c :: c in w ==> !IsSpace(c) }

  /** What a key and a value can look like. */
  predicate Proper(key: string, value: string) {
    && key != "" && value != "" && value[|value| - 1] != '='
    && ',' !in key && ',' !in value && '=' !in key
    && NoSpaces(key) && NoSpaces(value)
  }

  ghost predicate Valid(a: Args) {
    && (forall i, j :: 0 <= i < j < |a.keys| ==> a.keys[i] != a.keys[j])
    && (forall k :: k in a.keys <==> k in a.store)
    && (forall k :: k in a.store ==> Proper(k, a.store[k]))
  }

  // --- Parsing yields valid arguments ------------------------------------------------------------

  lemma {:induction false} SplitHasNoCommas(s: string)
    ensures forall w :: w in Split(s) ==> ',' !in w
  {
    if s != "" {
      SplitHasNoCommas(s[1..]);
    }
  }

  lemma {:induction false} WithoutSpacesIs(w: string)
    ensures NoSpaces(WithoutSpaces(w)) && forall c :: c in WithoutSpaces(w) ==> c in w
  {
    if w != "" {
      WithoutSpacesIs(w[1..]);
    }
  }

  lemma ParsedIsProper(piece: string)
    requires ',' !in piece
    ensures var e := ParseEntry(piece); e.Some? ==> Proper(e.value.key, e.value.value)
  {
    WithoutSpacesIs(piece);
  }

  lemma {:induction false} PutAllKeepsValid(a: Args, pieces: seq<string>)
    requires Valid(a) && forall w :: w in pieces ==> ',' !in w
    ensures Valid(PutAll(a, pieces))
    decreases |pieces|
  {
    if pieces != [] {
      ParsedIsProper(pieces[0]);
      PutAllKeepsValid(PutPiece(a, pieces[0]), pieces[1..]);
    }
  }

  lemma ParseIsValid(s: string)
    ensures Valid(Parse(s))
  {
    SplitHasNoCommas(s);
    PutAllKeepsValid(EMPTY, Split(s));
  }

  // --- Order and values ----------------------------------------------------------------------------

  /** The position of the first piece for `key`, or the number of pieces. */
  function FirstFor(pieces: seq<string>, key: string): (n: nat)
    ensures n <= |pieces|
    ensures n < |pieces| ==> ParseEntry(pieces[n]).Some? && ParseEntry(pieces[n]).value.key == key
    decreases |pieces|
  {
    if pieces == [] then 0
    else if ParseEntry(pieces[0]).Some? && ParseEntry(pieces[0]).value.key == key then 0
    else 1 + FirstFor(pieces[1..], key)
  }

  /** The value of the last piece for `key`. */
  function LastFor(pieces: seq<string>, key: string): Option<string>
    decreases |pieces|
  {
    if pieces == [] then None
    else
      var e := ParseEntry(pieces[|pieces| - 1]);
      if e.Some? && e.value.key == key then Some(e.value.value) else LastFor(pieces[..|pieces| - 1], key)
  }

  lemma {:induction false} PutAllSnoc(a: Args, pieces: seq<string>, w: string)
    ensures PutAll(a, pieces + [w]) == PutPiece(PutAll(a, pieces), w)
    decreases |pieces|
  {
    if pieces == [] {
      assert pieces + [w] == [w];
    } else {
      assert (pieces + [w])[1..] == pieces[1..] + [w];
      PutAllSnoc(PutPiece(a, pieces[0]), pieces[1..], w);
    }
  }

  lemma {:induction false} FirstForSnoc(pieces: seq<string>, w: string, key: string)
    ensures var e := ParseEntry(w);
      FirstFor(pieces + [w], key) ==
        if FirstFor(pieces, key) < |pieces| then FirstFor(pieces, key)
        else if e.Some? && e.value.key == key then |pieces| else |pieces| + 1
    decreases |pieces|
  {
    if pieces == [] {
      assert pieces + [w] == [w];
    } else {
      assert (pieces + [w])[1..] == pieces[1..] + [w];
      FirstForSnoc(pieces[1..], w, key);
    }
  }

  ghost predicate StoredKeys(pieces: seq<string>, a: Args) {
    forall k :: (k in a.keys <==> FirstFor(pieces, k) < |pieces|) && (k in a.keys <==> k in a.store)
  }

  ghost predicate LastValues(pieces: seq<string>, a: Args) {
    forall k :: LastFor(pieces, k) == if k in a.store then Some(a.store[k]) else None
  }

  ghost predicate FirstOrder(pieces: seq<string>, keys: seq<string>) {
    forall i, j :: 0 <= i < j < |keys| ==> FirstFor(pieces, keys[i]) < FirstFor(pieces, keys[j])
  }

  /** A key is stored if and only if some piece has it; it holds the value of the last such piece;
      keys are in the order of their first pieces. */
  lemma {:induction false} OrderAndValues(pieces: seq<string>)
    ensures var a := PutAll(EMPTY, pieces);
      StoredKeys(pieces, a) && LastValues(pieces, a) && FirstOrder(pieces, a.keys)
    decreases |pieces|
  {
    if pieces != [] {
      var init, w := pieces[..|pieces| - 1], pieces[|pieces| - 1];
      assert pieces == init + [w];
      OrderAndValues(init);
      PutAllSnoc(EMPTY, init, w);
      hide PutAll, StoredKeys, LastValues, FirstOrder;
      var a := PutAll(EMPTY, init);
      KeysAfterPut(init, w, a);
      ValuesAfterPut(init, w, a);
      OrderAfterPut(init, w, a);
    }
  }

  lemma KeysAfterPut(init: seq<string>, w: string, a: Args)
    requires StoredKeys(init, a)
    ensures StoredKeys(init + [w], PutPiece(a, w))
  {
    hide FirstFor, ParseEntry;
    forall k { FirstForSnoc(init, w, k); }
  }

  lemma ValuesAfterPut(init: seq<string>, w: string, a: Args)
    requires LastValues(init, a)
    ensures LastValues(init + [w], PutPiece(a, w))
  {
    hide ParseEntry;
    assert (init + [w])[..|init|] == init;
  }

  lemma OrderAfterPut(init: seq<string>, w: string, a: Args)
    requires StoredKeys(init, a) && FirstOrder(init, a.keys)
    ensures FirstOrder(init + [w], PutPiece(a, w).keys)
  {
    hide FirstFor, ParseEntry;
    forall k { FirstForSnoc(init, w, k); }
  }

  // --- Round trip --------------------------------------------------------------------------------

  lemma {:induction false} SplitPlain(w: string)
    requires ',' !in w
    ensures Split(w) == [w]
  {
    if w != "" {
      SplitPlain(w[1..]);
      assert [w[0]] + w[1..] == w;
    }
  }

  lemma {:induction false} SplitTwo(w: string, s: string)
    requires ',' !in w
    ensures Split(w + "," + s) == [w] + Split(s)
  {
    if w == "" {
      assert w + "," + s == "," + s;
      assert ("," + s)[1..] == s;
    } else {
      SplitTwo(w[1..], s);
      assert (w + "," + s)[1..] == w[1..] + "," + s;
      assert [w[0]] + w[1..] == w;
    }
  }

  lemma {:induction false} SplitInit(s: string, w: string)
    requires ',' !in w
    ensures Split(s + "," + w) == Split(s) + [w]
  {
    if s == "" {
      assert s + "," + w == "," + w;
      assert ("," + w)[1..] == w;
      SplitPlain(w);
    } else {
      assert (s + "," + w)[1..] == s[1..] + "," + w;
      SplitInit(s[1..], w);
    }
  }

  lemma {:induction false} NothingToRemove(w: string)
    requires NoSpaces(w)
    ensures WithoutSpaces(w) == w
  {
    if w != "" {
      NothingToRemove(w[1..]);
    }
  }

  lemma {:induction false} FindEqualsAfter(key: string, rest: string)
    requires '=' !in key
    ensures FindEquals(key + "=" + rest) == |key|
  {
    var w := key + "=" + rest;
    if key == "" {
      assert w[0] == '=';
    } else {
      assert w[1..] == key[1..] + "=" + rest;
      FindEqualsAfter(key[1..], rest);
    }
  }

  lemma ShowIsClean(key: string, value: string)
    requires Proper(key, value)
    ensures ',' !in Show(key, value) && NoSpaces(Show(key, value))
  {
    assert !IsSpace('=');
    hide IsSpace;
  }

  lemma ShowIsPlain(key: string, value: string)
    requires Proper(key, value)
    ensures ',' !in Show(key, value) && NoSpaces(Show(key, value))
    ensures ParseEntry(Show(key, value)) == Some(Entry(key, value))
  {
    ShowIsClean(key, value);
    FindEqualsAfter(key, value);
    assert FindEquals(Show(key, value)) == |key|;
    hide WithoutSpaces, FindEquals, NoSpaces, Show;
    NothingToRemove(Show(key, value));
    ShowSplits(key, value);
  }

  lemma ShowSplits(key: string, value: string)
    ensures var w := Show(key, value);
      w[..|key|] == key && w[|key| + 1..] == value && |w| == |key| + 1 + |value|
    ensures key != "" ==> Show(key, value)[0] == key[0]
    ensures value != "" ==> var w := Show(key, value); w[|w| - 1] == value[|value| - 1]
  {
  }

  /** The arguments restricted to the first `n` keys. */
  function Restricted(a: Args, n: nat): Args
    requires n <= |a.keys|
  {
    Args(a.keys[..n], map k | k in a.store && k in a.keys[..n] :: a.store[k])
  }

  /** The first `n` entries with commas between them. */
  ghost function Joined(a: Args, n: nat): string
    requires 0 < n <= |a.keys| && forall k :: k in a.keys ==> k in a.store
  {
    var w := Show(a.keys[n - 1], a.store[a.keys[n - 1]]);
    if n == 1 then w else Joined(a, n - 1) + "," + w
  }

  lemma {:induction false} ShowAllIsJoined(a: Args, n: nat)
    requires 0 < n <= |a.keys| && forall k :: k in a.keys ==> k in a.store
    ensures ShowAll(a.keys[..n], a.store) == Joined(a, n) + ","
    decreases n
  {
    hide Show;
    var init := a.keys[..n - 1];
    assert a.keys[..n][..n - 1] == init && a.keys[..n][n - 1] == a.keys[n - 1];
    if n > 1 {
      ShowAllIsJoined(a, n - 1);
    }
  }

  lemma ParseOne(w: string)
    requires ',' !in w
    ensures Parse(w) == PutPiece(EMPTY, w)
  {
    SplitPlain(w);
    hide PutPiece, Split;
    assert PutAll(PutPiece(EMPTY, w), []) == PutPiece(EMPTY, w);
    assert PutAll(EMPTY, [w]) == PutAll(PutPiece(EMPTY, w), [w][1..]);
  }

  lemma ParseOneMore(front: string, w: string)
    requires ',' !in w
    ensures Parse(front + "," + w) == PutPiece(Parse(front), w)
  {
    SplitInit(front, w);
    hide PutPiece, Split;
    PutAllSnoc(EMPTY, Split(front), w);
  }

  /** Parsing the first `n` entries gives them back. */
  lemma {:induction false} RoundTripUpTo(a: Args, n: nat)
    requires Valid(a) && 0 < n <= |a.keys|
    ensures Parse(Joined(a, n)) == Restricted(a, n)
    decreases n
  {
    KeyIsProper(a, n - 1);
    hide Valid, Proper, PutPiece, Parse, Restricted, Show;
    var k := a.keys[n - 1];
    var w := Show(k, a.store[k]);
    ShowIsPlain(k, a.store[k]);
    PutShown(Restricted(a, n - 1), k, a.store[k]);
    OneMoreKey(a, n);
    if n == 1 {
      NoKeys(a);
      ParseOne(w);
    } else {
      RoundTripUpTo(a, n - 1);
      ParseOneMore(Joined(a, n - 1), w);
    }
  }

  lemma NoKeys(a: Args)
    ensures Restricted(a, 0) == EMPTY
  {
    assert a.keys[..0] == [];
  }

  lemma KeyIsProper(a: Args, i: nat)
    requires Valid(a) && i < |a.keys|
    ensures a.keys[i] in a.store && Proper(a.keys[i], a.store[a.keys[i]])
    ensures forall k :: k in a.keys ==> k in a.store
  {
    assert a.keys[i] in a.keys;
  }

  lemma PutShown(a: Args, key: string, value: string)
    requires Proper(key, value)
    ensures PutPiece(a, Show(key, value)) == Put(a, key, value)
  {
    ShowIsPlain(key, value);
    hide ParseEntry;
  }

  lemma OneMoreKey(a: Args, n: nat)
    requires Valid(a) && 0 < n <= |a.keys|
    ensures var k := a.keys[n - 1]; Put(Restricted(a, n - 1), k, a.store[k]) == Restricted(a, n)
  {
    hide Proper;
    var k, before := a.keys[n - 1], Restricted(a, n - 1);
    assert a.keys[..n] == a.keys[..n - 1] + [k];
    assert k !in before.store;
    assert before.store[k := a.store[k]] == Restricted(a, n).store;
  }

  /** Printing any valid arguments and parsing the result gives the same keys, values and order. */
  lemma RoundTrip(a: Args)
    requires Valid(a)
    ensures Parse(Join(a)) == a
  {
    hide Proper;
    var n := |a.keys|;
    assert a.keys[..n] == a.keys;
    if n == 0 {
      assert a.store == map[];
      ParseOne("");
    } else {
      ShowAllIsJoined(a, n);
      RoundTripUpTo(a, n);
      KeyIsProper(a, 0);
      assert Restricted(a, n) == a;
      JoinedIsLong(a, n);
      assert (Joined(a, n) + ",")[..|Joined(a, n)|] == Joined(a, n);
    }
  }

  lemma JoinedIsLong(a: Args, n: nat)
    requires 0 < n <= |a.keys| && forall k :: k in a.keys ==> k in a.store
    ensures |Joined(a, n)| >= 1
  {
  }

  /** In particular for what came from parsing any string at all. */
  lemma ParseJoinParse(s: string)
    ensures Valid(Parse(s)) && Parse(Join(Parse(s))) == Parse(s)
  {
    ParseIsValid(s);
    RoundTrip(Parse(s));
  }

  // --- What splitting, cleaning, reading and printing mean ------------------------------------------

  /** Pieces with commas between them. */
  function WithCommas(pieces: seq<string>): string
    decreases |pieces|
  {
    if pieces == [] then ""
    else if |pieces| == 1 then pieces[0]
    else pieces[0] + "," + WithCommas(pieces[1..])
  }

  /** Splitting is the one way to write the string as pieces without commas, with commas between them. */
  lemma {:induction false} SplitExactly(s: string, pieces: seq<string>)
    requires pieces != [] && forall w :: w in pieces ==> ',' !in w
    ensures Split(s) == pieces <==> WithCommas(pieces) == s
    decreases |pieces|
  {
    if WithCommas(pieces) == s {
      CommasThenSplit(pieces);
    }
    SplitThenCommas(s);
  }

  lemma {:induction false} CommasThenSplit(pieces: seq<string>)
    requires pieces != [] && forall w :: w in pieces ==> ',' !in w
    ensures Split(WithCommas(pieces)) == pieces
    decreases |pieces|
  {
    if |pieces| == 1 {
      SplitPlain(pieces[0]);
    } else {
      CommasThenSplit(pieces[1..]);
      SplitTwo(pieces[0], WithCommas(pieces[1..]));
      assert [pieces[0]] + pieces[1..] == pieces;
    }
  }

  lemma {:induction false} SplitThenCommas(s: string)
    ensures WithCommas(Split(s)) == s
  {
    if s != "" {
      var rest := Split(s[1..]);
      SplitThenCommas(s[1..]);
      if s[0] == ',' {
        assert ([""] + rest)[1..] == rest;
        assert s == "," + s[1..];
      } else {
        var first := [s[0]] + rest[0];
        assert ([first] + rest[1..])[1..] == rest[1..];
        assert s == [s[0]] + s[1..];
        assert |rest| > 1 ==> WithCommas(rest) == rest[0] + "," + WithCommas(rest[1..]);
        assert |rest| > 1 ==> first + "," + WithCommas(rest[1..]) == [s[0]] + (rest[0] + "," + WithCommas(rest[1..]));
      }
    }
  }

  /** Blanks, tabs, line feeds, vertical tabs, form feeds and carriage returns. */
  predicate IsBlank(c: char) {
    c as int == 32 || c as int == 9 || c as int == 10 || c as int == 11 || c as int == 12 || c as int == 13
  }

  lemma Regrouped(a: string, b: string, c: string, d: string)
    ensures a + b + c + d == a + (b + c + d)
  {
  }

  lemma FirstIsDropped(c: char, rest: string)
    ensures WithoutSpaces([c] + rest) == (if IsBlank(c) then "" else [c]) + WithoutSpaces(rest)
  {
    assert ([c] + rest)[0] == c && ([c] + rest)[1..] == rest;
  }

  /** Exactly these are dropped, wherever they are, and all others stay in order. */
  lemma {:induction false} DropsExactlyBlanks(before: string, c: char, after: string)
    ensures WithoutSpaces("") == ""
    ensures WithoutSpaces(before + [c] + after)
         == WithoutSpaces(before) + (if IsBlank(c) then "" else [c]) + WithoutSpaces(after)
    decreases |before|
  {
    assert WithoutSpaces("") == "";
    hide WithoutSpaces, IsBlank;
    if before == "" {
      assert before + [c] + after == [c] + after;
      FirstIsDropped(c, after);
    } else {
      var first, rest := [before[0]], before[1..];
      assert before == first + rest;
      Regrouped(first, rest, [c], after);
      FirstIsDropped(before[0], rest + [c] + after);
      FirstIsDropped(before[0], rest);
      DropsExactlyBlanks(rest, c, after);
      var kept := if IsBlank(before[0]) then "" else first;
      Regrouped(kept, WithoutSpaces(rest), if IsBlank(c) then "" else [c], WithoutSpaces(after));
    }
  }

  /** A piece is an entry exactly if, without blanks, it is a key, an equals sign and a value, where the
      key has no equals sign, neither is empty, and the value does not end in an equals sign. */
  lemma EntryExactlyWhen(piece: string, key: string, value: string)
    ensures ParseEntry(piece) == Some(Entry(key, value)) <==>
      && WithoutSpaces(piece) == key + "=" + value
      && key != "" && '=' !in key && value != "" && value[|value| - 1] != '='
  {
    var w := WithoutSpaces(piece);
    hide WithoutSpaces;
    if ParseEntry(piece) == Some(Entry(key, value)) {
      var pos := FindEquals(w);
      assert w == w[..pos] + [w[pos]] + w[pos + 1..];
      assert key != "" by { assert pos != 0; }
      assert value != "" by { assert pos != |w| - 1; }
    }
    if w == key + "=" + value && key != "" && '=' !in key && value != "" && value[|value| - 1] != '=' {
      FindEqualsAfter(key, value);
      hide FindEquals;
      assert w[..|key|] == key && w[|key| + 1..] == value;
      assert w[|w| - 1] == value[|value| - 1] && w[0] == key[0];
    }
  }

  ghost function Entries(a: Args): (entries: seq<string>)
    requires Valid(a)
    ensures |entries| == |a.keys|
    ensures forall i :: 0 <= i < |a.keys| ==> entries[i] == a.keys[i] + "=" + a.store[a.keys[i]]
  {
    seq(|a.keys|, i requires 0 <= i < |a.keys| => a.keys[i] + "=" + a.store[a.keys[i]])
  }

  /** What is printed: the entries in the order of the keys, with commas between them and none at the end. */
  lemma JoinExactly(a: Args)
    requires Valid(a)
    ensures Join(a) == WithCommas(Entries(a))
    ensures Join(a) != "" ==> Join(a)[|Join(a)| - 1] != ','
    ensures Join(a) == "" <==> a.keys == []
  {
    var n, entries := |a.keys|, Entries(a);
    assert a.keys[..n] == a.keys;
    if n > 0 {
      ShowAllIsJoined(a, n);
      JoinedIsLong(a, n);
      assert (Joined(a, n) + ",")[..|Joined(a, n)|] == Joined(a, n);
      JoinedIsWithCommas(a, entries, n);
      assert entries[..n] == entries;
      KeyIsProper(a, n - 1);
      JoinedEnds(a, n);
    }
  }

  lemma JoinedEnds(a: Args, n: nat)
    requires 0 < n <= |a.keys| && Valid(a) && Proper(a.keys[n - 1], a.store[a.keys[n - 1]])
    ensures Joined(a, n) != "" && Joined(a, n)[|Joined(a, n)| - 1] != ','
  {
    var value := a.store[a.keys[n - 1]];
    assert value[|value| - 1] in value;
  }

  lemma {:induction false} WithCommasSnoc(pieces: seq<string>, w: string)
    requires pieces != []
    ensures WithCommas(pieces + [w]) == WithCommas(pieces) + "," + w
    decreases |pieces|
  {
    assert (pieces + [w])[1..] == pieces[1..] + [w];
    if |pieces| == 1 {
      assert pieces[1..] + [w] == [w];
    } else {
      WithCommasSnoc(pieces[1..], w);
    }
  }

  lemma {:induction false} JoinedIsWithCommas(a: Args, entries: seq<string>, n: nat)
    requires 0 < n <= |a.keys| == |entries| && forall k :: k in a.keys ==> k in a.store
    requires forall i :: 0 <= i < |entries| ==> entries[i] == a.keys[i] + "=" + a.store[a.keys[i]]
    ensures Joined(a, n) == WithCommas(entries[..n])
    decreases n
  {
    if n == 1 {
      assert entries[..1] == [entries[0]];
    } else {
      JoinedIsWithCommas(a, entries, n - 1);
      assert entries[..n] == entries[..n - 1] + [entries[n - 1]];
      WithCommasSnoc(entries[..n - 1], entries[n - 1]);
    }
  }
}
