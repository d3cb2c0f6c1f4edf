/** Small types shared by every model. */
module Common {
  datatype Option<+T> = None | Some(value: T) {
    function GetOr(default: T): T {
      match this
      case Some(v) => v
      case None => default
    }
  }

  /** Some element of a non-empty set: iteration over a JavaScript map or set visits each element once. */
  method Pick<T>(s: set<T>) returns (x: T)
    requires s != {}
    ensures x in s
  {
    x :| x in s;
  }

  /** No element occurs twice. */
  predicate Distinct<T(==)>(s: seq<T>) {
    forall i, j :: 0 <= i < j < |s| ==> s[i] != s[j]
  }

  /** A number above all of a set. */
  lemma {:induction false} Beyond(s: set<int>) returns (x: int)
    ensures forall y :: y in s ==> y < x
    decreases s
  {
    if y :| y in s {
      var z := Beyond(s - {y});
      x := if y < z then z else y + 1;
      assert forall v :: v in s ==> v == y || v in s - {y};
    } else {
      x := 0;
    }
  }

  // ----- trimming text -----

  predicate IsSpace(c: char) {
    c == ' ' || '\t' <= c <= '\r' || c == 160 as char || c == 0xfeff as char
  }

  function TrimStart(s: string): string {
    if s != [] && IsSpace(s[0]) then TrimStart(s[1..]) else s
  }

  function TrimEnd(s: string): string {
    if s != [] && IsSpace(s[|s| - 1]) then TrimEnd(s[..|s| - 1]) else s
  }
}
