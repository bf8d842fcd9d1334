/** Texts that are put together from pieces. */
module Texts {
  import opened Sequences

  function Join(parts: seq<string>): string {
    if parts == [] then "" else parts[0] + Join(parts[1..])
  }

  lemma {:induction false} JoinConcat(a: seq<string>, b: seq<string>)
    ensures Join(a + b) == Join(a) + Join(b)
  {
    if a == [] {
      assert a + b == b;
      assert "" + Join(b) == Join(b);
    } else {
      JoinConcat(a[1..], b);
      assert (a + b)[1..] == a[1..] + b;
      assert (a + b)[0] == a[0];
      Associative(a[0], Join(a[1..]), Join(b));
    }
  }

  lemma JoinOnePiece(a: string)
    ensures Join([a]) == a
  {
    assert a + "" == a;
  }
}
