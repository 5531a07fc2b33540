/** `JdwpArgs`: the class that parses, stores and prints the options. */
module JdwpArguments {
  import opened JdwpOptions

  class JdwpArgs {
    var keys: seq<string>
    var store: map<string, string>

    ghost function Contents(): Args
      reads this
    {
      Args(keys, store)
    }

    constructor (opts: string)
      ensures Contents() == Parse(opts) && Valid(Contents())
    {
      keys, store := [], map[];
      new;
      ParseIsValid(opts);
      hide Valid, PutPiece, PutAll, Split;
      var rest, eof := opts, false;
      while !eof
        invariant Parse(opts) == if eof then Contents() else PutAll(Contents(), Split(rest))
        decreases !eof, |rest|
      {
        var w;
        ghost var before := Contents();
        w, rest, eof := GetLine(rest);
        OneMorePiece(before, w, if eof then [] else Split(rest));
        PutLine(w);
      }
    }

    /** One round of the loop: a piece without a proper entry is passed over. */
    method PutLine(piece: string)
      modifies this
      ensures Contents() == PutPiece(old(Contents()), piece)
    {
      hide WithoutSpaces, FindEquals, Put;
      var w := RemoveSpaces(piece);
      var pos := FindFirst(w);
      if pos == |w| || w[|w| - 1] == '=' || w[0] == '=' {
        return;
      }
      PutEntry(w[..pos], w[pos + 1..]);
    }

    method PutEntry(key: string, value: string)
      modifies this
      ensures Contents() == Put(old(Contents()), key, value)
    {
      if key !in store {
        keys := keys + [key];
      }
      store := store[key := value];
    }

    method JoinEntries() returns (opts: string)
      requires Valid(Contents())
      ensures opts == Join(Contents())
    {
      opts := "";
      for n := 0 to |keys|
        invariant opts == ShowAll(keys[..n], store)
      {
        opts := opts + Show(keys[n], store[keys[n]]) + ",";
        assert keys[..n + 1][..n] == keys[..n];
      }
      assert keys[..|keys|] == keys;
      if |opts| >= 2 {
        opts := opts[..|opts| - 1];
      }
    }
  }

  /** `getline`: up to the next comma, or to the end. */
  method GetLine(s: string) returns (w: string, rest: string, eof: bool)
    ensures Split(s) == if eof then [w] else [w] + Split(rest)
    ensures !eof ==> |rest| < |s|
  {
    var n := 0;
    while n < |s| && s[n] != ','
      invariant n <= |s| && ',' !in s[..n]
    {
      n := n + 1;
    }
    w := s[..n];
    if n == |s| {
      assert w == s;
      SplitPlain(w);
      return w, "", true;
    }
    rest, eof := s[n + 1..], false;
    SplitTwo(w, rest);
    assert s == w + "," + rest;
  }

  lemma OneMorePiece(a: Args, w: string, rest: seq<string>)
    ensures PutAll(a, [w] + rest) == PutAll(PutPiece(a, w), rest)
    ensures rest == [] ==> PutAll(a, [w]) == PutPiece(a, w)
  {
    assert ([w] + rest)[1..] == rest;
    assert rest == [] ==> [w] + rest == [w];
  }

  lemma OneMoreChar(w: string, r: string, n: int)
    requires 0 <= n < |w|
    ensures var one := if IsSpace(w[n]) then "" else [w[n]];
      r + WithoutSpaces(w[n..]) == r + one + WithoutSpaces(w[n + 1..])
  {
    assert w[n..][1..] == w[n + 1..];
  }

  lemma NoChar(w: string)
    ensures WithoutSpaces(w[|w|..]) == "" && WithoutSpaces(w[0..]) == WithoutSpaces(w)
  {
    assert w[0..] == w;
  }

  /** `remove_if` with `isspace`. */
  method RemoveSpaces(w: string) returns (r: string)
    ensures r == WithoutSpaces(w)
  {
    hide WithoutSpaces, IsSpace;
    NoChar(w);
    r := "";
    for n := 0 to |w|
      invariant WithoutSpaces(w) == r + WithoutSpaces(w[n..])
    {
      OneMoreChar(w, r, n);
      if !IsSpace(w[n]) {
        r := r + [w[n]];
      }
    }
  }

  method FindFirst(w: string) returns (n: nat)
    ensures n == FindEquals(w)
  {
    n := 0;
    while n < |w| && w[n] != '='
      invariant n <= |w| && FindEquals(w) == n + FindEquals(w[n..])
    {
      assert w[n..][1..] == w[n + 1..];
      n := n + 1;
    }
  }
}
