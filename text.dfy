/** String helpers the client of public/js/app.js relies on: `String.prototype.trim`
    on the form fields, the due-date label, and the order in which due dates sort. */
module TaskText {

  /** The characters JavaScript's `trim` removes: WhiteSpace (tab, vertical tab, form
      feed, space, no-break space, byte order mark and the Unicode space separators)
      and LineTerminator (line feed, carriage return, line and paragraph separators). */
  predicate IsJsWhitespace(c: char) {
    || c == '\t' || c == '\n' || c == '\U{000B}' || c == '\U{000C}' || c == '\r' || c == ' '
    || c == '\U{00A0}' || c == '\U{1680}' || ('\U{2000}' <= c <= '\U{200A}')
    || c == '\U{2028}' || c == '\U{2029}' || c == '\U{202F}' || c == '\U{205F}'
    || c == '\U{3000}' || c == '\U{FEFF}'
  }

  /** `s` without its leading whitespace: a suffix of `s`, everything dropped is
      whitespace, and what is left does not start with whitespace. */
  function TrimStart(s: string): (r: string)
    ensures |r| <= |s| && r == s[|s| - |r|..]
    ensures forall k :: 0 <= k < |s| - |r| ==> IsJsWhitespace(s[k])
    ensures r != [] ==> !IsJsWhitespace(r[0])
  {
    if s != [] && IsJsWhitespace(s[0]) then TrimStart(s[1..]) else s
  }

  /** `s` without its trailing whitespace: a prefix of `s`, everything dropped is
      whitespace, and what is left does not end with whitespace. */
  function TrimEnd(s: string): (r: string)
    ensures |r| <= |s| && r == s[..|r|]
    ensures forall k :: |r| <= k < |s| ==> IsJsWhitespace(s[k])
    ensures r != [] ==> !IsJsWhitespace(r[|r| - 1])
  {
    if s != [] && IsJsWhitespace(s[|s| - 1]) then TrimEnd(s[..|s| - 1]) else s
  }

  /** `s.trim()`. */
  function Trim(s: string): string {
    TrimEnd(TrimStart(s))
  }

  /** A trimmed field is empty (falsy in JavaScript) exactly when the field holds
      nothing but whitespace. */
  lemma TrimEmptyIff(s: string)
    ensures Trim(s) == [] <==> forall k :: 0 <= k < |s| ==> IsJsWhitespace(s[k])
  {
    var u := TrimStart(s);
    if Trim(s) == [] {
      forall k | 0 <= k < |s| ensures IsJsWhitespace(s[k]) {
        if k >= |s| - |u| {
          assert s[k] == u[k - (|s| - |u|)];
        }
      }
    } else {
      var k :| 0 <= k < |u| && !IsJsWhitespace(u[k]);
      assert s[k + (|s| - |u|)] == u[k];
    }
  }

  /** The due-date label: `fecha_vencimiento.replace('T', ' H:')`, which replaces the
      first `T` only. */
  function DueLabel(s: string): string {
    if s == [] then []
    else if s[0] == 'T' then " H:" + s[1..]
    else [s[0]] + DueLabel(s[1..])
  }

  /** A due date without `T` is shown as it is. */
  lemma {:induction false} DueLabelWithoutT(s: string)
    requires 'T' !in s
    ensures DueLabel(s) == s
  {
    if s != [] {
      assert 'T' !in s[1..] by {
        assert forall k :: 0 <= k < |s| - 1 ==> s[1..][k] == s[k + 1];
      }
      DueLabelWithoutT(s[1..]);
    }
  }

  /** With its first `T` at `i`, the label is the date up to `i`, then " H:", then the
      rest unchanged (later `T`s included). */
  lemma {:induction false} DueLabelFirstT(s: string, i: nat)
    requires i < |s| && s[i] == 'T'
    requires 'T' !in s[..i]
    ensures DueLabel(s) == s[..i] + " H:" + s[i + 1..]
  {
    if i > 0 {
      assert s[0] != 'T' by { assert s[..i][0] == s[0]; }
      assert s[1..][..i - 1] == s[1..i];
      assert 'T' !in s[1..][..i - 1] by {
        assert forall k :: 0 <= k < i - 1 ==> s[1..i][k] == s[..i][k + 1];
      }
      DueLabelFirstT(s[1..], i - 1);
      assert s[..i] == [s[0]] + s[1..][..i - 1];
      assert s[i + 1..] == s[1..][i..];
    }
  }

  /** Due dates compare as the fixed-width `YYYY-MM-DDTHH:MM` strings the date-time
      input produces, for which character-by-character order is chronological order. */
  predicate DueLeq(a: string, b: string) {
    a == [] || (b != [] && (a[0] < b[0] || (a[0] == b[0] && DueLeq(a[1..], b[1..]))))
  }

  lemma {:induction false} DueLeqTotal(a: string, b: string)
    ensures DueLeq(a, b) || DueLeq(b, a)
  {
    if a != [] && b != [] && a[0] == b[0] {
      DueLeqTotal(a[1..], b[1..]);
    }
  }

  lemma {:induction false} DueLeqTransitive(a: string, b: string, c: string)
    requires DueLeq(a, b) && DueLeq(b, c)
    ensures DueLeq(a, c)
  {
    if a != [] && a[0] == b[0] && b[0] == c[0] {
      DueLeqTransitive(a[1..], b[1..], c[1..]);
    }
  }
}
