/** Python's str.split(" ") and str.join on a separator, with their round trip. */
module Strings {

  /** str.split(" "): the pieces between single spaces, empty pieces included,
      so that "" gives [""] and " a  b" gives ["", "a", "", "b"]. */
  function Split(s: string): (r: seq<string>)
    ensures |r| >= 1
    ensures |r| == |Spaces(s)| + 1
  {
    if s == [] then [[]]
    else
      var rest := Split(s[1..]);
      if s[0] == ' ' then [[]] + rest
      else [[s[0]] + rest[0]] + rest[1..]
  }

  /** The spaces of s, in order. */
  function Spaces(s: string): (r: string)
    ensures |r| <= |s|
  {
    if s == [] then [] else (if s[0] == ' ' then [' '] else []) + Spaces(s[1..])
  }

  /** sep.join(parts): the parts with one separator between each two of them. */
  function JoinWith(sep: string, parts: seq<string>): (r: string)
    ensures parts != [] ==> |r| == |Flatten(parts)| + |sep| * (|parts| - 1)
  {
    if parts == [] then []
    else if |parts| == 1 then parts[0]
    else parts[0] + sep + JoinWith(sep, parts[1..])
  }

  /** "".join(parts). */
  function Flatten(parts: seq<string>): string {
    if parts == [] then [] else parts[0] + Flatten(parts[1..])
  }

  /** s with every space removed. */
  function RemoveSpaces(s: string): string {
    if s == [] then [] else (if s[0] == ' ' then [] else [s[0]]) + RemoveSpaces(s[1..])
  }

  /** Joining the pieces of a split with the separator gives back the string. */
  lemma {:induction false} JoinSplit(s: string)
    ensures JoinWith(" ", Split(s)) == s
  {
    if s != [] {
      var rest := Split(s[1..]);
      JoinSplit(s[1..]);
      if s[0] == ' ' {
        assert Split(s) == [[]] + rest;
        assert (Split(s))[1..] == rest;
      } else {
        assert Split(s) == [[s[0]] + rest[0]] + rest[1..];
        if |rest| == 1 {
          assert JoinWith(" ", rest) == rest[0];
        } else {
          assert JoinWith(" ", rest) == rest[0] + " " + JoinWith(" ", rest[1..]);
          assert (Split(s))[1..] == rest[1..];
        }
      }
    }
  }

  /** Every piece of a split is made of characters of the string other than the space. */
  lemma {:induction false} SplitPieces(s: string)
    ensures forall p, c :: p in Split(s) && c in p ==> c in s && c != ' '
  {
    if s != [] {
      SplitPieces(s[1..]);
      var rest := Split(s[1..]);
      forall p, c | p in Split(s) && c in p ensures c in s && c != ' ' {
        if s[0] == ' ' {
          assert p == [] || p in rest;
        } else {
          assert p == [s[0]] + rest[0] || p in rest[1..];
          if p == [s[0]] + rest[0] {
            assert c == s[0] || c in rest[0];
          } else {
            assert p in rest;
          }
        }
      }
    }
  }

  /** Concatenating the pieces of a split gives the string without its spaces. */
  lemma {:induction false} FlattenSplit(s: string)
    ensures Flatten(Split(s)) == RemoveSpaces(s)
  {
    if s != [] {
      var rest := Split(s[1..]);
      FlattenSplit(s[1..]);
      if s[0] == ' ' {
        assert Split(s) == [[]] + rest;
        assert Flatten(Split(s)) == [] + Flatten(rest);
      } else {
        assert Split(s) == [[s[0]] + rest[0]] + rest[1..];
        assert Flatten(rest) == rest[0] + Flatten(rest[1..]);
        calc {
          Flatten(Split(s));
          ([s[0]] + rest[0]) + Flatten(rest[1..]);
          [s[0]] + (rest[0] + Flatten(rest[1..]));
          [s[0]] + RemoveSpaces(s[1..]);
        }
      }
    }
  }

  lemma {:induction false} FlattenAppend(parts: seq<string>, p: string)
    ensures Flatten(parts + [p]) == Flatten(parts) + p
  {
    if parts == [] {
      assert [] + [p] == [p];
    } else {
      assert (parts + [p])[1..] == parts[1..] + [p];
      FlattenAppend(parts[1..], p);
    }
  }
}
