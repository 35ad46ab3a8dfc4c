/** The entity-info-update tool's entity-id parser: a `"num"` or
    `"shard.realm.num"` string becomes an `{shard, realm, num}` object. The
    parts are not checked to be numbers; they are passed on as strings. */
module EntityId {
  import opened Wrappers

  /** The separator between shard, realm and number. */
  const Dot: char := '.'

  /** The message of the error thrown for any other number of parts. */
  const FormatError: string := "Id format is incorrect"

  /** A field of the parsed object. The object starts out as the numbers
      `{shard: 0, realm: 0, num: 0}`, and the parser overwrites fields with
      string parts, so a field is either the number it started as or a string. */
  datatype Component = Number(n: int) | Text(s: string)

  /** The object `{shard, realm, num}` that the parser returns. */
  datatype EntityIdObj = EntityIdObj(shard: Component, realm: Component, num: Component)

  /** Number of occurrences of `c` in `s`. */
  function Count(s: string, c: char): (n: nat)
    ensures n <= |s|
    ensures n == 0 <==> c !in s
  {
    if |s| == 0 then 0
    else (if s[0] == c then 1 else 0) + Count(s[1..], c)
  }

  /** JavaScript `s.split(sep)` for a one-character separator: the maximal
      runs between separators, empty runs included. It never returns an empty
      array: `"".split(".")` is `[""]`. */
  function Split(s: string, sep: char): (parts: seq<string>)
    ensures |parts| >= 1
  {
    if |s| == 0 then [""]
    else
      var rest := Split(s[1..], sep);
      if s[0] == sep then [""] + rest
      else [[s[0]] + rest[0]] + rest[1..]
  }

  /** `parts.join(sep)`: the inverse of `Split`. */
  function Join(parts: seq<string>, sep: char): string
    requires |parts| >= 1
  {
    if |parts| == 1 then parts[0]
    else parts[0] + [sep] + Join(parts[1..], sep)
  }

  /** A three-part join, written out. */
  lemma JoinThree(parts: seq<string>, sep: char)
    requires |parts| == 3
    ensures Join(parts, sep) == parts[0] + [sep] + parts[1] + [sep] + parts[2]
  {
    assert parts[1..][1..] == [parts[2]];
    assert Join(parts[1..], sep) == parts[1] + [sep] + parts[2];
  }

  /** Every string splits into one more part than it has separators. */
  lemma {:induction false} SplitLength(s: string, sep: char)
    ensures |Split(s, sep)| == Count(s, sep) + 1
  {
    if |s| > 0 {
      SplitLength(s[1..], sep);
    }
  }

  /** No part produced by `Split` contains the separator. */
  lemma {:induction false} SplitPartsAreSeparatorFree(s: string, sep: char)
    ensures forall i :: 0 <= i < |Split(s, sep)| ==> sep !in Split(s, sep)[i]
  {
    if |s| > 0 {
      SplitPartsAreSeparatorFree(s[1..], sep);
      var rest := Split(s[1..], sep);
      if s[0] != sep {
        assert sep !in rest[0];
        assert sep !in [s[0]] + rest[0];
      }
    }
  }

  /** Joining the parts of a split gives back the original string. */
  lemma {:induction false} JoinSplit(s: string, sep: char)
    ensures Join(Split(s, sep), sep) == s
  {
    if |s| > 0 {
      JoinSplit(s[1..], sep);
      var rest := Split(s[1..], sep);
      if s[0] == sep {
        assert ([""] + rest)[1..] == rest;
      } else {
        var parts := [[s[0]] + rest[0]] + rest[1..];
        if |rest| == 1 {
          assert Join(parts, sep) == [s[0]] + rest[0];
        } else {
          assert parts[1..] == rest[1..];
          assert Join(rest, sep) == rest[0] + [sep] + Join(rest[1..], sep);
          assert Join(parts, sep) == [s[0]] + rest[0] + [sep] + Join(rest[1..], sep);
        }
        assert s == [s[0]] + s[1..];
      }
    }
  }

  /** A string without the separator splits into itself alone. */
  lemma {:induction false} SplitSeparatorFree(p: string, sep: char)
    requires sep !in p
    ensures Split(p, sep) == [p]
  {
    if |p| > 0 {
      SplitSeparatorFree(p[1..], sep);
      assert [p[0]] + p[1..] == p;
    }
  }

  /** A separator-free prefix followed by the separator becomes the first part. */
  lemma {:induction false} SplitAfterPrefix(p: string, sep: char, tail: string)
    requires sep !in p
    ensures Split(p + [sep] + tail, sep) == [p] + Split(tail, sep)
  {
    if |p| == 0 {
      assert p + [sep] + tail == [sep] + tail;
      assert ([sep] + tail)[1..] == tail;
    } else {
      var s := p + [sep] + tail;
      assert s[0] == p[0];
      assert s[1..] == p[1..] + [sep] + tail;
      SplitAfterPrefix(p[1..], sep, tail);
      assert [p[0]] + p[1..] == p;
    }
  }

  /** Splitting a join of separator-free parts gives back the parts. */
  lemma {:induction false} SplitJoin(parts: seq<string>, sep: char)
    requires |parts| >= 1
    requires forall i :: 0 <= i < |parts| ==> sep !in parts[i]
    ensures Split(Join(parts, sep), sep) == parts
  {
    if |parts| == 1 {
      SplitSeparatorFree(parts[0], sep);
    } else {
      SplitJoin(parts[1..], sep);
      SplitAfterPrefix(parts[0], sep, Join(parts[1..], sep));
      assert [parts[0]] + parts[1..] == parts;
    }
  }

  /** `getEntityObFromString`: one part is the entity number (shard and
      realm stay the number 0), three parts are shard, realm and number in
      order, and any other count of parts is rejected. */
  function GetEntityObFromString(id: string): (r: Result<EntityIdObj, string>)
    ensures r.Ok? <==> Count(id, Dot) == 0 || Count(id, Dot) == 2
    ensures Dot !in id ==> r == Ok(EntityIdObj(Number(0), Number(0), Text(id)))
    ensures Count(id, Dot) == 2 ==>
              && r.Ok? && r.value.shard.Text? && r.value.realm.Text? && r.value.num.Text?
              && r.value.shard.s + [Dot] + r.value.realm.s + [Dot] + r.value.num.s == id
              && Dot !in r.value.shard.s && Dot !in r.value.realm.s && Dot !in r.value.num.s
    ensures r.Err? ==> r.error == FormatError
  {
    var idParts := Split(id, Dot);
    SplitLength(id, Dot);
    SplitPartsAreSeparatorFree(id, Dot);
    JoinSplit(id, Dot);
    if |idParts| == 1 then
      Ok(EntityIdObj(Number(0), Number(0), Text(id)))
    else if |idParts| == 3 then
      JoinThree(idParts, Dot);
      Ok(EntityIdObj(Text(idParts[0]), Text(idParts[1]), Text(idParts[2])))
    else
      Err(FormatError)
  }

  /** Renders a parsed object back to the string it came from: the bare
      number when shard and realm were left at 0, the dotted triple otherwise. */
  function Render(e: EntityIdObj): string
  {
    match e
    case EntityIdObj(Text(shard), Text(realm), Text(num)) => shard + [Dot] + realm + [Dot] + num
    case EntityIdObj(_, _, Text(num)) => num
    case EntityIdObj(_, _, Number(_)) => ""
  }

  /** Every accepted id renders back to itself. */
  lemma ParseRender(id: string)
    requires GetEntityObFromString(id).Ok?
    ensures Render(GetEntityObFromString(id).value) == id
  {
  }

  /** The inverse direction for three parts: any three dot-free strings
      joined by dots parse to exactly those strings, in order. */
  lemma ParseThreeParts(shard: string, realm: string, num: string)
    requires Dot !in shard && Dot !in realm && Dot !in num
    ensures GetEntityObFromString(shard + [Dot] + realm + [Dot] + num)
            == Ok(EntityIdObj(Text(shard), Text(realm), Text(num)))
  {
    var parts := [shard, realm, num];
    JoinThree(parts, Dot);
    SplitJoin(parts, Dot);
  }

  /** Two parts, or four or more, are rejected with the format error. */
  lemma WrongPartCountRejected(id: string)
    requires |Split(id, Dot)| != 1 && |Split(id, Dot)| != 3
    ensures GetEntityObFromString(id) == Err(FormatError)
  {
  }

  /** No numeric validation: the empty id and an id of dots alone are accepted
      with empty parts, and a non-digit id is passed through. */
  lemma NoNumericValidation()
    ensures GetEntityObFromString("") == Ok(EntityIdObj(Number(0), Number(0), Text("")))
    ensures GetEntityObFromString("..") == Ok(EntityIdObj(Text(""), Text(""), Text("")))
    ensures GetEntityObFromString("abc") == Ok(EntityIdObj(Number(0), Number(0), Text("abc")))
  {
    ParseThreeParts("", "", "");
  }

  /** Concrete ids: a dotted triple, a bare number, and two rejected forms. */
  lemma ParseExamples()
    ensures GetEntityObFromString("0.0.98") == Ok(EntityIdObj(Text("0"), Text("0"), Text("98")))
    ensures GetEntityObFromString("98") == Ok(EntityIdObj(Number(0), Number(0), Text("98")))
    ensures GetEntityObFromString("0.98") == Err(FormatError)
    ensures GetEntityObFromString("0.0.0.98") == Err(FormatError)
  {
    ParseThreeParts("0", "0", "98");
    assert "0.0.98" == "0" + [Dot] + "0" + [Dot] + "98";
  }
}
