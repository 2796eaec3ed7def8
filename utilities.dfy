/**
 * The error vocabulary shared by the models and the handlers, and the translation of
 * validator failures into the human-readable list the API returns with status 422.
 */
module Utilities {

  /** The offending value of a field, as the JSON text it is rendered to. */
  datatype ErrValue = ErrValue(json: string)

  /** One violated constraint as the validator reports it: field name, constraint tag,
      the tag's parameter (the `3` of `gte=3`, empty when it has none) and the value. */
  datatype FieldError = FieldError(field: string, tag: string, param: string, value: ErrValue)

  /** One entry of the 422 response body. */
  datatype ValidationErrorMsg = ValidationErrorMsg(field: string, message: string, value: ErrValue)

  /** Errors the database driver hands back: no row, more than one row where exactly one
      was expected, a server error carrying a SQLSTATE code, or anything else (network,
      pool, scanning). */
  datatype DriverError = ErrNoRows | ErrTooManyRows | PgError(code: string) | OtherDriverError

  /** Errors a model operation returns: a driver error passed through unchanged, or the
      package's own sentinel for a delete that touched more than one row (its text, "too
      many affected rows", only reaches the server log). */
  datatype ModelError = Driver(cause: DriverError) | ErrTooManyAffectedRows

  const RequiredSuffix := " is required"
  const EmailMessage := "invalid email format"
  const NameMessage := "invalid name (digit is not allowed)"
  const GtePrefix := "value must be greater or equal than "
  const LtePrefix := "value must be less or equal than "
  const DatetimePrefix := "datetime format must be "
  const NumberMessage := "only accept positive number"
  const DefaultMessage := "invalid value"

  /** The tags the message table knows; every other tag gets DefaultMessage. */
  const KnownTags: set<string> := {"required", "email", "validname", "gte", "lte", "datetime", "number"}

  /** The fixed tag-to-message table. */
  function TagMessage(tag: string, field: string, param: string): string
  {
    if tag == "required" then field + RequiredSuffix
    else if tag == "email" then EmailMessage
    else if tag == "validname" then NameMessage
    else if tag == "gte" then GtePrefix + param
    else if tag == "lte" then LtePrefix + param
    else if tag == "datetime" then DatetimePrefix + param
    else if tag == "number" then NumberMessage
    else DefaultMessage
  }

  /** The prefix a parameterised tag puts before its parameter. */
  function ParamPrefix(tag: string): string
    requires tag in {"gte", "lte", "datetime"}
  {
    if tag == "gte" then GtePrefix else if tag == "lte" then LtePrefix else DatetimePrefix
  }

  /** The generic message is produced exactly for the tags the table does not know. */
  lemma DefaultMessageIffUnknownTag(tag: string, field: string, param: string)
    ensures TagMessage(tag, field, param) == DefaultMessage <==> tag !in KnownTags
  {
    if tag == "required" {
      var m := field + RequiredSuffix;
      if |m| == |DefaultMessage| {
        assert m[|field|] == ' ' && DefaultMessage[1] == 'n';
        assert |field| == 1;
        assert m[1] != DefaultMessage[1];
      }
    } else if tag in {"gte", "lte", "datetime"} {
      assert |TagMessage(tag, field, param)| >= |DatetimePrefix| > |DefaultMessage|;
    }
  }

  /** `required` names the field: the message is the field followed by " is required",
      so the field can be read back off the message. */
  lemma RequiredMessageNamesField(field: string, param: string)
    ensures var m := TagMessage("required", field, param);
      |m| == |field| + |RequiredSuffix| && m[..|field|] == field && m[|field|..] == RequiredSuffix
  {
  }

  /** `email`, `validname` and `number` have fixed messages that mention neither the
      field nor the parameter. */
  lemma FixedTagMessages(field: string, param: string)
    ensures TagMessage("email", field, param) == EmailMessage
    ensures TagMessage("validname", field, param) == NameMessage
    ensures TagMessage("number", field, param) == NumberMessage
  {
  }

  /** `gte`, `lte` and `datetime` each put their own fixed prefix in front of the
      parameter, which follows verbatim; the three prefixes differ, so the message
      determines both the tag and the parameter. */
  lemma ParamMessageCarriesParam(tag: string, field: string, param: string)
    requires tag in {"gte", "lte", "datetime"}
    ensures var m := TagMessage(tag, field, param);
      |m| >= |ParamPrefix(tag)| && m[..|ParamPrefix(tag)|] == ParamPrefix(tag) && m[|ParamPrefix(tag)|..] == param
  {
  }

  /** The three parameter prefixes are pairwise distinct and none is a prefix of another,
      so a message never reads as belonging to a different parameterised tag. */
  lemma ParamPrefixesDistinct(t1: string, t2: string, p1: string, p2: string, f1: string, f2: string)
    requires t1 in {"gte", "lte", "datetime"} && t2 in {"gte", "lte", "datetime"}
    requires TagMessage(t1, f1, p1) == TagMessage(t2, f2, p2)
    ensures t1 == t2 && p1 == p2
  {
    var m := TagMessage(t1, f1, p1);
    ParamMessageCarriesParam(t1, f1, p1);
    ParamMessageCarriesParam(t2, f2, p2);
    // Any two of the prefixes already differ at index 0 (gte or lte against datetime)
    // or at index 14 (gte against lte).
    assert ParamPrefix(t1)[0] == m[0] == ParamPrefix(t2)[0];
    assert ParamPrefix(t1)[14] == m[14] == ParamPrefix(t2)[14];
  }

  /** The entry ParseValidationError emits for one reported failure. */
  function Describe(fe: FieldError): ValidationErrorMsg
  {
    ValidationErrorMsg(fe.field, TagMessage(fe.tag, fe.field, fe.param), fe.value)
  }

  /** The list ParseValidationError builds: one entry per failure, appended in order. */
  function Messages(errs: seq<FieldError>): seq<ValidationErrorMsg>
  {
    if errs == [] then [] else Messages(errs[..|errs| - 1]) + [Describe(errs[|errs| - 1])]
  }

  /** Same length, same order, and each entry keeps its failure's field and value. */
  lemma {:induction false} MessagesAt(errs: seq<FieldError>)
    ensures |Messages(errs)| == |errs|
    ensures forall i :: 0 <= i < |errs| ==> Messages(errs)[i] == Describe(errs[i])
    ensures forall i :: 0 <= i < |errs| ==>
      Messages(errs)[i].field == errs[i].field && Messages(errs)[i].value == errs[i].value
  {
    if errs != [] {
      var n := |errs| - 1;
      var init := errs[..n];
      MessagesAt(init);
      assert Messages(errs) == Messages(init) + [Describe(errs[n])];
      forall i | 0 <= i < |errs|
        ensures Messages(errs)[i] == Describe(errs[i])
      {
        if i < n {
          assert Messages(errs)[i] == Messages(init)[i];
          assert init[i] == errs[i];
        }
      }
    }
  }

  /** Translating a concatenation translates each part: the fold never reorders entries. */
  lemma {:induction false} MessagesAppend(a: seq<FieldError>, b: seq<FieldError>)
    ensures Messages(a + b) == Messages(a) + Messages(b)
  {
    MessagesAt(a);
    MessagesAt(b);
    MessagesAt(a + b);
    assert forall i :: 0 <= i < |a| ==> (a + b)[i] == a[i];
    assert forall i :: |a| <= i < |a| + |b| ==> (a + b)[i] == b[i - |a|];
  }

  /** An empty failure list gives an empty message list. */
  lemma MessagesEmpty()
    ensures Messages([]) == []
  {
  }

  /** The loop of ParseValidationError: walk the failures in order and append one
      message per failure. */
  method ParseValidationError(errs: seq<FieldError>) returns (msgs: seq<ValidationErrorMsg>)
    ensures msgs == Messages(errs)
    ensures |msgs| == |errs|
    ensures forall i :: 0 <= i < |errs| ==> msgs[i] == Describe(errs[i])
  {
    msgs := [];
    var i := 0;
    while i < |errs|
      invariant 0 <= i <= |errs|
      invariant msgs == Messages(errs[..i])
    {
      var fe := errs[i];
      var errMsg := TagMessage(fe.tag, fe.field, fe.param);
      msgs := msgs + [ValidationErrorMsg(fe.field, errMsg, fe.value)];
      assert errs[..i + 1][..i] == errs[..i];
      i := i + 1;
    }
    assert errs[..i] == errs;
    MessagesAt(errs);
  }
}
