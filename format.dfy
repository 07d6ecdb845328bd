/** Python's `str.format` on a template whose only replacement fields are
    plain `{name}` placeholders: the template is a list of literal pieces with
    one field between each two neighbouring pieces, and every field is copied
    in verbatim (nothing is escaped). `Unfill` reads the fields back out of a
    filled XML template; it is the partner that shows what survives
    substitution. */
module PyFormat {
  import opened Wrappers
  import opened Strings

  /** The character every closing XML tag, and so every piece after a field, starts with. */
  const TagOpen: char := '<'

  /** `pieces[0] + fields[0] + pieces[1] + ... + fields[n-1] + pieces[n]`. */
  function Format(pieces: seq<string>, fields: seq<string>): (s: string)
    requires |pieces| == |fields| + 1
    ensures IsPrefix(pieces[0], s)
  {
    if fields == [] then pieces[0]
    else pieces[0] + fields[0] + Format(pieces[1..], fields[1..])
  }

  /** Every piece after the first starts with `<`, as closing tags do. */
  predicate PiecesDelimited(pieces: seq<string>) {
    forall i | 1 <= i < |pieces| :: |pieces[i]| > 0 && pieces[i][0] == TagOpen
  }

  /** No field contains `<`. */
  predicate FieldsPlain(fields: seq<string>) {
    forall i | 0 <= i < |fields| :: TagOpen !in fields[i]
  }

  /** Reads the fields of `x` back, taking each field to run up to the next `<`;
      `None` when `x` is not a filling of `pieces` of that kind. */
  function Unfill(pieces: seq<string>, x: string): (r: Option<seq<string>>)
    requires |pieces| >= 1
    ensures r.Some? ==> |r.value| == |pieces| - 1 && FieldsPlain(r.value)
    decreases |pieces|
  {
    if |pieces| == 1 then
      if x == pieces[0] then Some([]) else None
    else if !IsPrefix(pieces[0], x) then None
    else
      var rest := x[|pieces[0]|..];
      var field := TakeUntil(rest, TagOpen);
      match Unfill(pieces[1..], rest[|field|..])
      case None => None
      case Some(fs) => Some([field] + fs)
  }

  /** Round trip: the fields of a filled template are read back exactly, as long
      as no field contains `<`. */
  lemma {:induction false} UnfillFormat(pieces: seq<string>, fields: seq<string>)
    requires |pieces| == |fields| + 1
    requires PiecesDelimited(pieces) && FieldsPlain(fields)
    ensures Unfill(pieces, Format(pieces, fields)) == Some(fields)
  {
    if fields != [] {
      var tail := Format(pieces[1..], fields[1..]);
      UnfillStep(pieces, fields[0], tail);
      assert PiecesDelimited(pieces[1..]) by {
        forall i | 1 <= i < |pieces[1..]| ensures |pieces[1..][i]| > 0 && pieces[1..][i][0] == TagOpen {
          assert pieces[1..][i] == pieces[i + 1];
        }
      }
      assert FieldsPlain(fields[1..]) by {
        forall i | 0 <= i < |fields[1..]| ensures TagOpen !in fields[1..][i] {
          assert fields[1..][i] == fields[i + 1];
        }
      }
      UnfillFormat(pieces[1..], fields[1..]);
      assert [fields[0]] + fields[1..] == fields;
    }
  }

  /** One step of the reader: after the first piece it takes the field up to the
      `<` that starts the rest. */
  lemma UnfillStep(pieces: seq<string>, field: string, tail: string)
    requires |pieces| >= 2 && IsPrefix(pieces[1], tail) && |pieces[1]| > 0 && pieces[1][0] == TagOpen
    requires TagOpen !in field
    ensures Unfill(pieces, pieces[0] + field + tail) ==
              match Unfill(pieces[1..], tail)
              case None => None
              case Some(fs) => Some([field] + fs)
  {
    var x := pieces[0] + field + tail;
    assert x[..|pieces[0]|] == pieces[0];
    var rest := x[|pieces[0]|..];
    assert rest == field + tail;
    assert tail[0] == TagOpen;
    TakeUntilStopsAt(field, tail, TagOpen);
    assert rest[|field|..] == tail;
  }

  /** Soundness of the reader: whatever it accepts is a filling of the template
      with the fields it returns. */
  lemma {:induction false} FormatUnfill(pieces: seq<string>, x: string)
    requires |pieces| >= 1 && Unfill(pieces, x).Some?
    ensures |Unfill(pieces, x).value| == |pieces| - 1
    ensures Format(pieces, Unfill(pieces, x).value) == x
    decreases |pieces|
  {
    if |pieces| > 1 {
      var rest := x[|pieces[0]|..];
      var field := TakeUntil(rest, TagOpen);
      var fs := Unfill(pieces[1..], rest[|field|..]).value;
      FormatUnfill(pieces[1..], rest[|field|..]);
      assert Unfill(pieces, x).value == [field] + fs;
      assert ([field] + fs)[1..] == fs;
      assert rest == field + rest[|field|..];
      assert x == pieces[0] + rest;
    }
  }

  /** A template with two fields, written out. */
  lemma FormatPair(pieces: seq<string>, a: string, b: string)
    requires |pieces| == 3
    ensures Format(pieces, [a, b]) == pieces[0] + a + pieces[1] + b + pieces[2]
  {
    assert [a, b][1..] == [b];
    assert Format(pieces[1..], [b]) == pieces[1] + b + pieces[2] by {
      assert pieces[1..][1..] == pieces[2..];
    }
  }

  /** Without escaping, a first field that carries the middle piece can stand
      for part of the second field. */
  lemma FieldSpill(pieces: seq<string>, a: string, b: string, c: string)
    requires |pieces| == 3
    ensures Format(pieces, [a + pieces[1] + b, c]) == Format(pieces, [a, b + pieces[1] + c])
  {
    FormatPair(pieces, a + pieces[1] + b, c);
    FormatPair(pieces, a, b + pieces[1] + c);
    Regroup(pieces[0], a, pieces[1], b, c, pieces[2]);
  }

  /** Moves the middle piece from the first field to the second; kept apart from
      `FieldSpill` so that the regrouping is proved without the template in scope. */
  lemma Regroup(p0: string, a: string, p1: string, b: string, c: string, p2: string)
    ensures p0 + (a + p1 + b) + p1 + c + p2 == p0 + a + p1 + (b + p1 + c) + p2
  {
  }


  /** Substitution is injective on `<`-free fields: two fillings of the same
      template are equal only when their fields are. */
  lemma FormatInjective(pieces: seq<string>, fields1: seq<string>, fields2: seq<string>)
    requires |pieces| == |fields1| + 1 && |pieces| == |fields2| + 1
    requires PiecesDelimited(pieces) && FieldsPlain(fields1) && FieldsPlain(fields2)
    ensures Format(pieces, fields1) == Format(pieces, fields2) <==> fields1 == fields2
  {
    if Format(pieces, fields1) == Format(pieces, fields2) {
      UnfillFormat(pieces, fields1);
      UnfillFormat(pieces, fields2);
    }
  }

  /** Each field appears in the result verbatim, between the piece before it and
      the piece after it. */
  lemma {:induction false} FormatFieldInfix(pieces: seq<string>, fields: seq<string>, i: nat)
    requires |pieces| == |fields| + 1 && i < |fields|
    ensures IsInfix(pieces[i] + fields[i] + pieces[i + 1], Format(pieces, fields))
  {
    var s := Format(pieces, fields);
    if i == 0 {
      var tail := Format(pieces[1..], fields[1..]);
      assert s == pieces[0] + fields[0] + tail;
      assert s[..|pieces[0] + fields[0] + pieces[1]|] == pieces[0] + fields[0] + pieces[1];
      PrefixInfix(pieces[0] + fields[0] + pieces[1], s);
    } else {
      var tail := Format(pieces[1..], fields[1..]);
      FormatFieldInfix(pieces[1..], fields[1..], i - 1);
      assert IsSuffix(tail, s);
      SuffixInfix(tail, s);
      InfixTransitive(pieces[i] + fields[i] + pieces[i + 1], tail, s);
    }
  }

  /** Each literal piece appears in the result. */
  lemma FormatPieceInfix(pieces: seq<string>, fields: seq<string>, i: nat)
    requires |pieces| == |fields| + 1 && i < |pieces|
    ensures IsInfix(pieces[i], Format(pieces, fields))
  {
    var s := Format(pieces, fields);
    if i < |fields| {
      FormatFieldInfix(pieces, fields, i);
      PrefixInfix(pieces[i], pieces[i] + fields[i] + pieces[i + 1]);
      InfixTransitive(pieces[i], pieces[i] + fields[i] + pieces[i + 1], s);
    } else if i == 0 {
      PrefixInfix(pieces[0], s);
    } else {
      FormatFieldInfix(pieces, fields, i - 1);
      var w := pieces[i - 1] + fields[i - 1] + pieces[i];
      SuffixInfix(pieces[i], w);
      InfixTransitive(pieces[i], w, s);
    }
  }

}
