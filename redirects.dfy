/** Where `edit_expense` and `delete_expense` send the browser afterwards
    (app.py:251-259, app.py:277-280): the `next` value from the query string
    or the form when it looks like a local path, the expense list otherwise.
    An absent `next` is the empty string: `None` and '' are both falsy. */
module Redirects {
  import opened Sequences

  /** `url_for('myexpence')`. */
  const ExpenseListPath: string := "/myexpence"

  /** Python's `a or b` on two strings. */
  function FirstGiven(a: string, b: string): (r: string)
    ensures a != [] ==> r == a
    ensures a == [] ==> r == b
    ensures r != [] <==> a != [] || b != []
  {
    if a != [] then a else b
  }

  /** The sanitiser as app.py writes it: keep `next` when it is non-empty
      and starts with '/'. */
  function NextTargetAsWritten(next: string): (r: string)
    ensures r != [] && r[0] == '/'
    ensures r == next <==> next != [] && next[0] == '/'
    ensures r != next ==> r == ExpenseListPath
  {
    if next == [] || next[0] != '/' then ExpenseListPath else next
  }

  /** Browsers drop tabs and line breaks from a URL before reading it. */
  function NotTabOrNewline(c: char): bool
  {
    c != '\t' && c != '\n' && c != '\r'
  }

  /** What a browser does with `next`: a path on this site. It starts with
      '/', and after tabs and line breaks are dropped its second character
      is neither '/' nor '\', which would make it a scheme-relative URL
      naming another host. */
  predicate IsLocalPath(next: string)
  {
    var seen := Filter(next, NotTabOrNewline);
    next != [] && next[0] == '/' && !(|seen| >= 2 && (seen[1] == '/' || seen[1] == '\\'))
  }

  /** A '/' followed by a character the browser keeps and that is not a
      separator starts a local path, whatever comes after. */
  lemma {:induction false} LocalByHead(p: string)
    requires |p| >= 2 && p[0] == '/' && NotTabOrNewline(p[1]) && p[1] != '/' && p[1] != '\\'
    ensures IsLocalPath(p)
  {
    var tail := p[1..];
    assert tail[0] == p[1];
    assert Filter(tail, NotTabOrNewline) == [p[1]] + Filter(tail[1..], NotTabOrNewline);
    assert Filter(p, NotTabOrNewline) == [p[0]] + Filter(tail, NotTabOrNewline);
  }

  lemma ExpenseListPathIsLocal()
    ensures IsLocalPath(ExpenseListPath)
  {
    assert ExpenseListPath[1] == 'm';
    LocalByHead(ExpenseListPath);
  }

  /** The sanitiser the handlers use: keep `next` only when it is a local path. */
  function NextTarget(next: string): (r: string)
    ensures IsLocalPath(r)
    ensures r == next <==> IsLocalPath(next)
    ensures r != next ==> r == ExpenseListPath
  {
    ExpenseListPathIsLocal();
    if IsLocalPath(next) then next else ExpenseListPath
  }

  /** The check as written lets every scheme-relative URL through, so
      `next=//host` sends the user to another site after an edit or delete;
      the corrected sanitiser falls back to the expense list. */
  lemma SchemeRelativeAcceptedAsWritten(host: string)
    ensures NextTargetAsWritten("//" + host) == "//" + host
    ensures NextTarget("//" + host) == ExpenseListPath
  {
    SchemeRelativeNotLocal(host);
  }

  lemma SchemeRelativeNotLocal(host: string)
    ensures !IsLocalPath("//" + host)
  {
    var next := "//" + host;
    var tail := next[1..];
    assert next[0] == '/' && tail[0] == '/';
    assert Filter(tail, NotTabOrNewline) == ['/'] + Filter(tail[1..], NotTabOrNewline);
    assert Filter(next, NotTabOrNewline) == ['/'] + Filter(tail, NotTabOrNewline);
  }

  /** The two sanitisers part only on scheme-relative targets: they agree
      exactly when `next` is not a '/' followed, after dropped tabs and line
      breaks, by a second '/' or '\'. */
  lemma SanitisersAgree(next: string)
    ensures NextTarget(next) == NextTargetAsWritten(next) <==>
      !(next != [] && next[0] == '/' && !IsLocalPath(next))
  {
    ExpenseListPathIsLocal();
  }
}
