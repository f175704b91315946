/**
 * The `requireFields(fields)` middleware: it lets a request through when its body has
 * every listed field, and otherwise answers 400 naming the first field that is missing.
 * A field counts as missing only when reading it gives `undefined`, so `null`, `0`, `false`
 * and `""` count as present.
 */
module Validation {
  import opened Js

  /** What the middleware does with a request: hand it on with `next()`, answer it, or
      throw (reading a field of a `null`/`undefined` body). */
  datatype Verdict = Next | Answer(status: nat, body: Json) | Threw(e: Exception)

  /** `{ error: "Missing field <f>" }` */
  function MissingField(f: string): Json
  {
    JObj(["error"], [JStr("Missing field " + f)])
  }

  /** The loop over the fields, in order, stopping at the first whose value is `undefined`. */
  function Check(fields: seq<string>, body: Json): Verdict
  {
    if fields == [] then Next
    else if Nullish(body) then Threw(TypeError)
    else if Prop(body, fields[0]) == JUndefined then Answer(400, MissingField(fields[0]))
    else Check(fields[1..], body)
  }

  /** A field is present when reading it does not give `undefined`. */
  predicate Present(body: Json, f: string)
  {
    Prop(body, f) != JUndefined
  }

  /** The request goes on exactly when every field is present (vacuously so with no fields,
      the default list, whatever the body); it throws exactly when there are fields and the body is `null` or
      `undefined`. */
  lemma {:induction false} CheckNext(fields: seq<string>, body: Json)
    ensures Check(fields, body) == Next <==>
      fields == [] || (!Nullish(body) && forall i :: 0 <= i < |fields| ==> Present(body, fields[i]))
    ensures Check(fields, body).Threw? <==> fields != [] && Nullish(body)
    ensures Check(fields, body).Threw? ==> Check(fields, body).e == TypeError
  {
    if fields != [] && !Nullish(body) && Present(body, fields[0]) {
      CheckNext(fields[1..], body);
      if Check(fields, body) == Next {
        forall i | 0 <= i < |fields|
          ensures Present(body, fields[i])
        {
          if i > 0 {
            assert fields[i] == fields[1..][i - 1];
          }
        }
      }
    }
  }

  /** The answer names the first missing field: when field `i` is missing and every field
      before it is present, the answer is 400 naming field `i`. */
  lemma {:induction false} CheckFirstMissing(fields: seq<string>, body: Json, i: int)
    requires !Nullish(body) && 0 <= i < |fields| && !Present(body, fields[i])
    requires forall j :: 0 <= j < i ==> Present(body, fields[j])
    ensures Check(fields, body) == Answer(400, MissingField(fields[i]))
  {
    if i > 0 {
      CheckFirstMissing(fields[1..], body, i - 1);
    }
  }

  /** Every answer is a 400 naming a missing field that comes after present ones only. */
  lemma {:induction false} CheckAnswers(fields: seq<string>, body: Json)
    requires Check(fields, body).Answer?
    ensures exists i ::
      (&& 0 <= i < |fields| && !Present(body, fields[i])
       && (forall j :: 0 <= j < i ==> Present(body, fields[j]))
       && Check(fields, body) == Answer(400, MissingField(fields[i])))
  {
    if Present(body, fields[0]) {
      CheckAnswers(fields[1..], body);
      var i :| 0 <= i < |fields[1..]| && !Present(body, fields[1..][i]) &&
        (forall j :: 0 <= j < i ==> Present(body, fields[1..][j])) &&
        Check(fields[1..], body) == Answer(400, MissingField(fields[1..][i]));
      assert !Present(body, fields[i + 1]);
      forall j | 0 <= j < i + 1
        ensures Present(body, fields[j])
      {
        if j > 0 {
          assert fields[j] == fields[1..][j - 1];
        }
      }
    } else {
      assert !Present(body, fields[0]);
    }
  }
}
