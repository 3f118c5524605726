/**
 * pkg/errorsx: an error list. A nil error is None; appending to a list
 * extends it, and any two other errors become a two-element list. The
 * message of a list joins its members' messages with "; ".
 */
module ErrorsX {
  import opened Wrappers
  import opened Text

  datatype Error =
    | Simple(msg: string)
    | Errors(errs: seq<Error>)

  const Separator: string := "; "

  /** err.Error(): a list's message joins its members' messages in order. */
  function Message(e: Error): string
    decreases e
  {
    match e
    case Simple(msg) => msg
    case Errors(errs) => Join(Messages(errs), Separator)
  }

  function Messages(errs: seq<Error>): (r: seq<string>)
    ensures |r| == |errs|
    decreases errs, 0
  {
    if errs == [] then [] else Messages(errs[..|errs| - 1]) + [Message(errs[|errs| - 1])]
  }

  /** Errors.Error: the member messages collected in a loop, then joined. */
  method ErrorString(errs: seq<Error>) returns (s: string)
    ensures s == Message(Errors(errs))
    ensures |errs| == 1 ==> s == Message(errs[0])
    ensures |errs| > 1 ==> s == Message(Errors(errs[..|errs| - 1])) + Separator + Message(errs[|errs| - 1])
  {
    var errStrings: seq<string> := [];
    var i := 0;
    while i < |errs|
      invariant 0 <= i <= |errs|
      invariant errStrings == Messages(errs[..i])
    {
      assert errs[..i + 1][..i] == errs[..i];
      errStrings := errStrings + [Message(errs[i])];
      i := i + 1;
    }
    assert errs[..i] == errs;
    s := Join(errStrings, Separator);
    if |errs| > 1 {
      JoinSnoc(Messages(errs[..|errs| - 1]), Message(errs[|errs| - 1]), Separator);
    }
  }

  /** Append(err1, err2). */
  function Append(err1: Option<Error>, err2: Option<Error>): (r: Option<Error>)
    ensures err1.None? ==> r == err2
    ensures err1.Some? && err2.None? ==> r == err1
    ensures err1.Some? && err2.Some? && err1.value.Errors? ==> r == Some(Errors(err1.value.errs + [err2.value]))
    ensures err1.Some? && err2.Some? && !err1.value.Errors? ==> r == Some(Errors([err1.value, err2.value]))
    ensures r.None? <==> err1.None? && err2.None?
  {
    if err1.None? then err2
    else if err2.None? then err1
    else if err1.value.Errors? then Some(Errors(err1.value.errs + [err2.value]))
    else Some(Errors([err1.value, err2.value]))
  }

  /**
   * The message of an appended error is the first message, "; ", then the
   * second, unless the first is an empty list (whose message is "").
   */
  lemma {:induction false} MessageOfAppend(e1: Error, e2: Error)
    requires e1 != Errors([])
    ensures Message(Append(Some(e1), Some(e2)).value) == Message(e1) + Separator + Message(e2)
  {
    if e1.Errors? {
      var es := e1.errs + [e2];
      assert es[..|es| - 1] == e1.errs;
      assert Messages(es) == Messages(e1.errs) + [Message(e2)];
      JoinSnoc(Messages(e1.errs), Message(e2), Separator);
    } else {
      var es := [e1, e2];
      assert es[..1] == [e1];
      assert [e1][..0] == [];
      assert Messages([e1]) == [Message(e1)];
      assert Messages(es) == [Message(e1), Message(e2)];
      assert Join([Message(e1), Message(e2)], Separator) == Message(e1) + Separator + Message(e2);
    }
  }

  /** Appending to an empty list leaves just the new error's message. */
  lemma MessageOfAppendToEmpty(e2: Error)
    ensures Message(Append(Some(Errors([])), Some(e2)).value) == Message(e2)
  {
    assert [] + [e2] == [e2];
    assert [e2][..0] == [];
  }

  /** Appending errors one by one collects them all, in order, after a first list. */
  lemma {:induction false} AppendAll(es: seq<Error>, more: seq<Error>)
    ensures FoldAppend(Some(Errors(es)), more) == Some(Errors(es + more))
    decreases |more|
  {
    if more == [] {
      assert es + [] == es;
    } else {
      assert es + more == (es + [more[0]]) + more[1..];
      AppendAll(es + [more[0]], more[1..]);
    }
  }

  function FoldAppend(acc: Option<Error>, more: seq<Error>): Option<Error>
    decreases |more|
  {
    if more == [] then acc else FoldAppend(Append(acc, Some(more[0])), more[1..])
  }
}
