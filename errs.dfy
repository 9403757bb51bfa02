/**
 * Error values (sidecar/errs/error.go, and the error values the rest of the
 * sidecar builds or passes on) and the text their `Error()` method gives.
 */
module Errs {
  import opened Strings

  /** `ValidateError`: an input-validation failure carrying its message. */
  datatype ValidateError = ValidateError(text: string) {

    function Error(): string
    {
      text
    }

    /** `Prefix(p)`: the error whose message is `p` followed by this one's. */
    function Prefix(prefix: string): (r: ValidateError)
      ensures r.Error() == prefix + Error()
    {
      ValidateError(prefix + text)
    }

    /** `Suffix(s)`: the error whose message is this one's followed by `s`. */
    function Suffix(suffix: string): (r: ValidateError)
      ensures r.Error() == Error() + suffix
    {
      ValidateError(text + suffix)
    }
  }

  /** The other string-typed errors of the package. */
  datatype StringError =
    | ErrBadParameter(text: string)
    | ErrUnauthorized(text: string)
    | ErrForbidden(text: string)
    | ErrNotFound(text: string)
  {
    function Error(): string
    {
      text
    }
  }

  /**
   * The Go `error` values that flow through the sidecar. Each constructor
   * stands for one concrete Go error type; `Text` is its `Error()`.
   */
  datatype Err =
    | Sys(text: string)                    // reported by the Go library (package os, path/filepath)
    | New(text: string)                    // errors.New
    | Wrapped(context: string, cause: Err) // errors.Wrapf and errors.WithMessagef
    | Invalid(v: ValidateError)            // errs.ValidateError
    | InvalidList(vs: seq<ValidateError>)  // errs.ValidateErrors
    | List(items: seq<Err>)                // fsutil.ErrorList

  /** The `Error()` text of an error value. */
  function Text(e: Err): string
  {
    match e
    case Sys(t) => t
    case New(t) => t
    case Wrapped(c, cause) => c + ": " + Text(cause)
    case Invalid(v) => v.Error()
    case InvalidList(vs) => ValidateErrorsText(vs)
    case List(items) => ErrorListText(seq(|items|, i requires 0 <= i < |items| => Text(items[i])))
  }

  function Texts(vs: seq<ValidateError>): (r: seq<string>)
    ensures |r| == |vs| && forall i :: 0 <= i < |vs| ==> r[i] == vs[i].Error()
  {
    seq(|vs|, i requires 0 <= i < |vs| => vs[i].Error())
  }

  /** `ValidateErrors.Error`: the messages between brackets, separated by ", ". */
  function ValidateErrorsText(vs: seq<ValidateError>): string
  {
    "[" + Join(Texts(vs), ", ") + "]"
  }

  /** One line of `fsutil.ErrorList.Error`: `error[<i>]: <message>`. */
  function NumberedLine(i: nat, msg: string): string
  {
    "error[" + Itoa(i) + "]: " + msg
  }

  /** `fsutil.ErrorList.Error`, given the messages of the listed errors. */
  function ErrorListText(msgs: seq<string>): string
  {
    Join(seq(|msgs|, i requires 0 <= i < |msgs| => NumberedLine(i, msgs[i])), "\n")
  }

  /** `ErrorsPkg.Error`, given the errors of the package. */
  function ErrorsPkgText(p: seq<Err>): string
  {
    Join(seq(|p|, i requires 0 <= i < |p| => Text(p[i])), ", ")
  }

  /** Building a string-typed error from a message and asking for its message gives the message back, and conversely. */
  lemma StringErrorsKeepText(s: string, e: StringError, v: ValidateError)
    ensures ErrBadParameter(s).Error() == s && ErrUnauthorized(s).Error() == s
    ensures ErrForbidden(s).Error() == s && ErrNotFound(s).Error() == s
    ensures ValidateError(s).Error() == s
    ensures ValidateError(v.Error()) == v
    ensures e.ErrBadParameter? ==> ErrBadParameter(e.Error()) == e
    ensures e.ErrUnauthorized? ==> ErrUnauthorized(e.Error()) == e
    ensures e.ErrForbidden? ==> ErrForbidden(e.Error()) == e
    ensures e.ErrNotFound? ==> ErrNotFound(e.Error()) == e
  {
  }

  /** Prefixing twice is prefixing once with the two prefixes in reverse order; likewise for suffixes. */
  lemma PrefixSuffixCompose(e: ValidateError, a: string, b: string)
    ensures e.Prefix(a).Prefix(b) == e.Prefix(b + a)
    ensures e.Suffix(a).Suffix(b) == e.Suffix(a + b)
    ensures e.Prefix(a).Suffix(b) == e.Suffix(b).Prefix(a)
  {
    assert b + (a + e.text) == (b + a) + e.text;
    assert (e.text + a) + b == e.text + (a + b);
    assert (a + e.text) + b == a + (e.text + b);
  }

  /** `ValidateErrors.Error` of an empty list is "[]", of one error its message in brackets. */
  lemma ValidateErrorsTextSmall(vs: seq<ValidateError>)
    ensures vs == [] ==> ValidateErrorsText(vs) == "[]"
    ensures |vs| == 1 ==> ValidateErrorsText(vs) == "[" + vs[0].Error() + "]"
  {
  }

  /** Length of `ValidateErrors.Error`: the brackets, the messages and one ", " per seam. */
  lemma ValidateErrorsTextLength(vs: seq<ValidateError>)
    requires |vs| > 0
    ensures |ValidateErrorsText(vs)| == 2 + Sum(seq(|vs|, i requires 0 <= i < |vs| => |vs[i].Error()|)) + 2 * (|vs| - 1)
  {
    var ts := Texts(vs);
    JoinLength(ts, ", ");
    assert seq(|ts|, i requires 0 <= i < |ts| => |ts[i]|) == seq(|vs|, i requires 0 <= i < |vs| => |vs[i].Error()|);
  }

  /** `fsutil.ErrorList.Error` is empty exactly for the empty list: every line carries its `error[i]: ` tag. */
  lemma ErrorListTextEmptyIff(msgs: seq<string>)
    ensures ErrorListText(msgs) == "" <==> msgs == []
  {
    var lines := seq(|msgs|, i requires 0 <= i < |msgs| => NumberedLine(i, msgs[i]));
    if |msgs| > 0 {
      JoinLength(lines, "\n");
      SumPositive(seq(|lines|, i requires 0 <= i < |lines| => |lines[i]|), |lines| - 1);
    }
  }

  lemma {:induction false} SumPositive(ns: seq<nat>, k: nat)
    requires k < |ns| && ns[k] > 0
    ensures Sum(ns) > 0
  {
    if k < |ns| - 1 {
      SumPositive(ns[..|ns| - 1], k);
    }
  }

  /** In `fsutil.ErrorList.Error`, line `i` of the text is tagged with `i` and the lines are joined by "\n" with no newline at the end. */
  lemma ErrorListTextLines(msgs: seq<string>)
    requires |msgs| > 0
    ensures |msgs| == 1 ==> ErrorListText(msgs) == "error[0]: " + msgs[0]
    ensures |msgs| > 1 ==> ErrorListText(msgs) == ErrorListText(msgs[..|msgs| - 1]) + "\n" + NumberedLine(|msgs| - 1, msgs[|msgs| - 1])
  {
    var lines := seq(|msgs|, i requires 0 <= i < |msgs| => NumberedLine(i, msgs[i]));
    var init := msgs[..|msgs| - 1];
    assert lines[..|lines| - 1] == seq(|init|, i requires 0 <= i < |init| => NumberedLine(i, init[i]));
  }

  /** `ValidateErrors.Error`: a `strings.Builder` loop writing "[", the messages with ", " between them, and "]". */
  method ValidateErrorsError(es: seq<ValidateError>) returns (r: string)
    ensures r == Text(InvalidList(es))
  {
    ghost var ts := Texts(es);
    var sb := "[";
    var i := 0;
    while i < |es|
      invariant 0 <= i <= |es|
      invariant i < |es| ==> sb == "[" + Join(ts[..i], ", ") + (if 0 < i then ", " else "")
      invariant i == |es| ==> sb == "[" + Join(ts[..i], ", ")
    {
      assert ts[..i + 1][..i] == ts[..i];
      assert ts[..i + 1][i] == es[i].text;
      sb := sb + es[i].text;
      if i < |es| - 1 {
        sb := sb + ", ";
      }
      i := i + 1;
    }
    assert ts[..|es|] == ts;
    sb := sb + "]";
    r := sb;
  }

  /** `ValidateErrors.Prefix`: the same list when empty, otherwise a fresh list of the prefixed errors. */
  method ValidateErrorsPrefix(es: seq<ValidateError>, prefix: string) returns (nes: seq<ValidateError>)
    ensures |nes| == |es|
    ensures forall i :: 0 <= i < |es| ==> nes[i] == es[i].Prefix(prefix)
    ensures |es| == 0 ==> nes == es
  {
    if |es| == 0 {
      return es;
    }
    var a := new ValidateError[|es|];
    for i := 0 to |es|
      invariant forall j :: 0 <= j < i ==> a[j] == es[j].Prefix(prefix)
    {
      a[i] := es[i].Prefix(prefix);
    }
    nes := a[..];
  }

  /** `ValidateErrors.Suffix`: the same list when empty, otherwise a fresh list of the suffixed errors. */
  method ValidateErrorsSuffix(es: seq<ValidateError>, suffix: string) returns (nes: seq<ValidateError>)
    ensures |nes| == |es|
    ensures forall i :: 0 <= i < |es| ==> nes[i] == es[i].Suffix(suffix)
    ensures |es| == 0 ==> nes == es
  {
    if |es| == 0 {
      return es;
    }
    var a := new ValidateError[|es|];
    for i := 0 to |es|
      invariant forall j :: 0 <= j < i ==> a[j] == es[j].Suffix(suffix)
    {
      a[i] := es[i].Suffix(suffix);
    }
    nes := a[..];
  }

  /** `ErrorsPkg.Error`: collect every message, then join them with ", ". */
  method ErrorsPkgError(p: seq<Err>) returns (r: string)
    ensures r == ErrorsPkgText(p)
    ensures p == [] ==> r == ""
  {
    var emsgs: seq<string> := [];
    for i := 0 to |p|
      invariant emsgs == seq(i, j requires 0 <= j < i => Text(p[j]))
    {
      emsgs := emsgs + [Text(p[i])];
    }
    r := Join(emsgs, ", ");
  }
}
