/** Vocabulary shared by every component: optional values and the text rules
    (byte-wise string order, trimming, lower-casing) that the services rely on. */
module Base {

  datatype Option<+T> = None | Some(value: T)

  /** COALESCE(MAX(x), 0). */
  ghost function MaxOf(s: set<int>): (r: int)
    ensures s == {} ==> r == 0
    ensures s != {} ==> r in s && forall x | x in s :: x <= r
  {
    if exists x :: x in s then
      var x :| x in s;
      var rest := s - {x};
      assert s == rest + {x};
      if rest == {} || MaxOf(rest) < x then x else MaxOf(rest)
    else 0
  }

  /** String order as SQLite's ORDER BY and Go's `<` compare text. */
  predicate Lex(a: string, b: string) {
    b != "" && (a == "" || a[0] < b[0] || (a[0] == b[0] && Lex(a[1..], b[1..])))
  }

  lemma {:induction false} LexTotal(a: string, b: string)
    ensures !(Lex(a, b) && Lex(b, a))
    ensures a == b || Lex(a, b) || Lex(b, a)
    ensures a == b ==> !Lex(a, b)
  {
    if a != "" && b != "" && a[0] == b[0] {
      LexTotal(a[1..], b[1..]);
      if a[1..] == b[1..] {
        assert a == [a[0]] + a[1..] && b == [b[0]] + b[1..];
      }
    }
  }

  lemma {:induction false} LexTransitive(a: string, b: string, c: string)
    requires Lex(a, b) && Lex(b, c)
    ensures Lex(a, c)
  {
    if a != "" && a[0] == b[0] && b[0] == c[0] {
      LexTransitive(a[1..], b[1..], c[1..]);
    }
  }

  /** The white space that Go's strings.TrimSpace removes. */
  predicate IsSpace(c: char) {
    || c == ' ' || '\t' <= c <= '\r' || c == '\U{0085}' || c == '\U{00A0}'
    || c == '\U{1680}' || '\U{2000}' <= c <= '\U{200A}' || c == '\U{2028}' || c == '\U{2029}'
    || c == '\U{202F}' || c == '\U{205F}' || c == '\U{3000}'
  }

  function TrimLeft(s: string): string {
    if s != "" && IsSpace(s[0]) then TrimLeft(s[1..]) else s
  }

  function TrimRight(s: string): string {
    if s != "" && IsSpace(s[|s| - 1]) then TrimRight(s[..|s| - 1]) else s
  }

  function TrimSpace(s: string): string {
    TrimRight(TrimLeft(s))
  }

  predicate AllSpace(s: string) { forall i | 0 <= i < |s| :: IsSpace(s[i]) }

  lemma {:induction false} TrimLeftOfSpace(s: string)
    ensures AllSpace(s) ==> TrimLeft(s) == ""
    ensures !AllSpace(s) ==> TrimLeft(s) != "" && !IsSpace(TrimLeft(s)[0])
  {
    hide IsSpace;
    if s != "" && IsSpace(s[0]) {
      TrimLeftOfSpace(s[1..]);
      if AllSpace(s[1..]) {
        assert forall i | 0 < i < |s| :: s[i] == s[1..][i - 1];
      }
    }
  }

  lemma {:induction false} TrimRightKeeps(s: string)
    requires !AllSpace(s)
    ensures TrimRight(s) != ""
  {
    hide IsSpace;
    if IsSpace(s[|s| - 1]) {
      assert !AllSpace(s[..|s| - 1]);
      TrimRightKeeps(s[..|s| - 1]);
    }
  }

  /** Trimming leaves nothing exactly when every character is white space. */
  lemma TrimsToNothing(s: string)
    ensures TrimSpace(s) == "" <==> AllSpace(s)
  {
    hide IsSpace;
    TrimLeftOfSpace(s);
    if !AllSpace(s) {
      TrimRightKeeps(TrimLeft(s));
    }
  }
}
