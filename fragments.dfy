/**
 * The fragment joiner (`joinSQLFragments`) that the generator methods assemble their
 * statements with: empty fragments are dropped and the remaining ones are joined by one space.
 */
module Fragments {
  import opened Text

  /** The fragments that survive: every non-empty one, in order. */
  function NonEmpty(fragments: seq<string>): (r: seq<string>)
    ensures forall i :: 0 <= i < |r| ==> r[i] != ""
    ensures |r| <= |fragments|
  {
    if fragments == [] then []
    else if fragments[0] == "" then NonEmpty(fragments[1..])
    else [fragments[0]] + NonEmpty(fragments[1..])
  }

  function JoinSql(fragments: seq<string>): string
  {
    Separated(NonEmpty(fragments), " ")
  }

  /** How two joined pieces combine: a space appears only between two non-empty pieces. */
  function Glue(left: string, right: string): string
  {
    if left == "" then right else if right == "" then left else left + " " + right
  }

  /** A fragment that may be empty, as it reads after a non-empty one: nothing, or a space and itself. */
  function Spaced(fragment: string): string
  {
    if fragment == "" then "" else " " + fragment
  }

  lemma {:induction false} NonEmptyAppend(a: seq<string>, b: seq<string>)
    ensures NonEmpty(a + b) == NonEmpty(a) + NonEmpty(b)
    decreases |a|
  {
    if a == [] {
      assert a + b == b;
    } else {
      assert (a + b)[0] == a[0];
      assert (a + b)[1..] == a[1..] + b;
      NonEmptyAppend(a[1..], b);
    }
  }

  lemma {:induction false} SeparatedNonEmpty(parts: seq<string>, sep: string)
    requires forall i :: 0 <= i < |parts| ==> parts[i] != ""
    ensures Separated(parts, sep) == "" <==> parts == []
  {
    if |parts| > 1 {
      assert |Separated(parts, sep)| >= |parts[|parts| - 1]|;
    }
  }

  /** Joining a concatenation of fragment lists glues their joins. */
  lemma JoinSqlAppend(a: seq<string>, b: seq<string>)
    ensures JoinSql(a + b) == Glue(JoinSql(a), JoinSql(b))
  {
    NonEmptyAppend(a, b);
    SeparatedNonEmpty(NonEmpty(a), " ");
    SeparatedNonEmpty(NonEmpty(b), " ");
    if NonEmpty(a) != [] && NonEmpty(b) != [] {
      SeparatedAppend(NonEmpty(a), NonEmpty(b), " ");
    } else if NonEmpty(a) == [] {
      assert NonEmpty(a) + NonEmpty(b) == NonEmpty(b);
    } else {
      assert NonEmpty(a) + NonEmpty(b) == NonEmpty(a);
    }
  }

  lemma JoinSqlSingle(x: string)
    ensures JoinSql([x]) == x
  {
    assert [x][1..] == [];
  }

  /** Appending one more fragment: a non-empty one follows after a space, an empty one vanishes. */
  lemma JoinSqlSnoc(a: seq<string>, x: string)
    ensures JoinSql(a + [x]) == Glue(JoinSql(a), x)
  {
    JoinSqlAppend(a, [x]);
    JoinSqlSingle(x);
  }

  /** Joining is idempotent: re-joining an already joined statement changes nothing. */
  lemma JoinSqlIdempotent(fragments: seq<string>)
    ensures JoinSql([JoinSql(fragments)]) == JoinSql(fragments)
  {
    JoinSqlSingle(JoinSql(fragments));
  }

  /** Dropping the empty fragments first gives the same statement. */
  lemma {:induction false} NonEmptyIdempotent(fragments: seq<string>)
    ensures NonEmpty(NonEmpty(fragments)) == NonEmpty(fragments)
    ensures JoinSql(NonEmpty(fragments)) == JoinSql(fragments)
    decreases |fragments|
  {
    if fragments != [] {
      NonEmptyIdempotent(fragments[1..]);
      if fragments[0] != "" {
        var r := NonEmpty(fragments[1..]);
        assert ([fragments[0]] + r)[1..] == r;
      }
    }
  }

  /** When no fragment is empty, joining is plain space separation. */
  lemma {:induction false} JoinSqlAllPresent(fragments: seq<string>)
    requires forall i :: 0 <= i < |fragments| ==> fragments[i] != ""
    ensures NonEmpty(fragments) == fragments
    ensures JoinSql(fragments) == Separated(fragments, " ")
    decreases |fragments|
  {
    if fragments != [] {
      JoinSqlAllPresent(fragments[1..]);
      assert fragments == [fragments[0]] + fragments[1..];
    }
  }

  /** The statements the generator builds, fragment by fragment. */
  lemma JoinSql2(a: string, b: string)
    requires a != "" && b != ""
    ensures JoinSql([a, b]) == a + " " + b
  {
    JoinSqlSingle(a);
    JoinSqlSnoc([a], b);
    assert [a] + [b] == [a, b];
  }

  lemma JoinSql3(a: string, b: string, c: string)
    requires a != "" && b != "" && c != ""
    ensures JoinSql([a, b, c]) == a + " " + b + " " + c
  {
    JoinSql2(a, b);
    JoinSqlSnoc([a, b], c);
    assert [a, b] + [c] == [a, b, c];
  }

  lemma JoinSql6(a: string, b: string, c: string, d: string, e: string, f: string)
    requires a != "" && b != "" && c != "" && d != "" && e != "" && f != ""
    ensures JoinSql([a, b, c, d, e, f]) == a + " " + b + " " + c + " " + d + " " + e + " " + f
  {
    JoinSql3(a, b, c);
    JoinSqlSnoc([a, b, c], d);
    assert [a, b, c] + [d] == [a, b, c, d];
    JoinSqlSnoc([a, b, c, d], e);
    assert [a, b, c, d] + [e] == [a, b, c, d, e];
    JoinSqlSnoc([a, b, c, d, e], f);
    assert [a, b, c, d, e] + [f] == [a, b, c, d, e, f];
  }

  /** Gluing a fragment that may be empty onto a non-empty statement. */
  lemma GlueSpaced(p: string, x: string)
    requires p != ""
    ensures Glue(p, x) == p + Spaced(x)
    ensures p + Spaced(x) != ""
  {
    if x != "" {
      assert p + " " + x == p + (" " + x);
    } else {
      assert p + "" == p;
    }
  }

  /** Three fixed fragments, two that may be empty, and a fixed last one. */
  lemma JoinSqlWithOptional(a: string, b: string, c: string, x: string, y: string, z: string)
    requires a != "" && b != "" && c != "" && z != ""
    ensures JoinSql([a, b, c, x, y, z]) == a + " " + b + " " + c + Spaced(x) + Spaced(y) + " " + z
  {
    var p := a + " " + b + " " + c;
    JoinSql3(a, b, c);
    JoinSqlSnoc([a, b, c], x);
    assert [a, b, c] + [x] == [a, b, c, x];
    GlueSpaced(p, x);
    JoinSqlSnoc([a, b, c, x], y);
    assert [a, b, c, x] + [y] == [a, b, c, x, y];
    GlueSpaced(p + Spaced(x), y);
    JoinSqlSnoc([a, b, c, x, y], z);
    assert [a, b, c, x, y] + [z] == [a, b, c, x, y, z];
  }
}
