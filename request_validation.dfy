/**
 * The Express middlewares that check a request body before a route handler runs:
 * either they pass the request on (`next()`) or they answer it themselves.
 */
module RequestValidation {
  import opened Js
  import opened ApiResponse

  /** What a middleware does with a request. */
  datatype Verdict =
    | Next                          // calls `next()` once and sends nothing
    | Respond(response: Response)   // sends a response and does not call `next()`
    | Throws                        // a property read on a nullish body raises a TypeError

  const TEMPLATE_REQUIRED: string := "Email template is required"

  /** The fields of `fields` whose value in the body is falsy, in their given order. */
  function Missing(body: Value, fields: seq<string>): (missing: seq<string>)
    ensures |missing| <= |fields|
  {
    if fields == [] then []
    else
      var rest := Missing(body, fields[1..]);
      if Truthy(Prop(body, fields[0])) then rest else [fields[0]] + rest
  }

  /** A field is reported missing iff it was asked for and its value is falsy (`''`, `0`, `false` included). */
  lemma {:induction false} MissingIffFalsy(body: Value, fields: seq<string>, f: string)
    ensures f in Missing(body, fields) <==> f in fields && !Truthy(Prop(body, f))
  {
    if fields != [] {
      MissingIffFalsy(body, fields[1..], f);
      assert f in fields <==> f == fields[0] || f in fields[1..];
    }
  }

  /** `validateRequired(...fields)` applied to a request body. */
  function ValidateRequired(fields: seq<string>, body: Value): (r: Verdict)
    ensures Nullish(body) && fields != [] ==> r == Throws
    ensures r.Respond? ==> r.response == ValidationError()
  {
    if fields != [] && Nullish(body) then Throws
    else if |Missing(body, fields)| > 0 then Respond(ValidationError())
    else Next
  }

  /** On a body that can be read, the request goes on exactly when every listed field is truthy. */
  lemma ValidateRequiredNextIffAllPresent(fields: seq<string>, body: Value)
    requires !Nullish(body)
    ensures ValidateRequired(fields, body) == Next <==> forall f :: f in fields ==> Truthy(Prop(body, f))
    ensures ValidateRequired(fields, body) != Next ==> ValidateRequired(fields, body) == Respond(ValidationError())
  {
    if ValidateRequired(fields, body) == Next {
      forall f | f in fields
        ensures Truthy(Prop(body, f))
      {
        MissingIffFalsy(body, fields, f);
      }
    } else {
      var f := Missing(body, fields)[0];
      MissingIffFalsy(body, fields, f);
    }
  }

  /** `validateEmailTemplate`: `emailTemplate`, its `subject` and its `html` must be truthy; `text` is optional. */
  function ValidateEmailTemplate(body: Value): (r: Verdict)
    ensures !Nullish(body) ==>
      (r == Next <==>
        Truthy(Prop(body, "emailTemplate")) &&
        Truthy(Prop(Prop(body, "emailTemplate"), "subject")) &&
        Truthy(Prop(Prop(body, "emailTemplate"), "html")))
    ensures !Nullish(body) && r != Next ==> r == Respond(ValidationError(Str(TEMPLATE_REQUIRED)))
  {
    if Nullish(body) then Throws
    else
      var template := Prop(body, "emailTemplate");
      if !Truthy(template) || !Truthy(Prop(template, "subject")) || !Truthy(Prop(template, "html"))
      then Respond(ValidationError(Str(TEMPLATE_REQUIRED)))
      else Next
  }

  /** The template check never looks at `text`: changing or removing it changes nothing. */
  lemma EmailTemplateTextOptional(body: map<string, Value>, template: map<string, Value>, text: Value)
    requires "emailTemplate" in body && body["emailTemplate"] == Obj(template)
    ensures ValidateEmailTemplate(Obj(body["emailTemplate" := Obj(template["text" := text])]))
         == ValidateEmailTemplate(Obj(body))
  {
  }
}
