/**
 * What tokenizing keeps, for every text: all but the quotes and the unquoted blanks, in order, broken
 * at the unquoted blanks and nowhere else (crates/core/src/query.rs).
 */
module QueryTokens {
  import opened Tags
  import opened Queries

  // ---- Where a text breaks -------------------------------------------------

  /** How many double quotes there are. */
  function Quotes(s: string): nat {
    if s == "" then 0 else (if s[0] == '"' then 1 else 0) + Quotes(s[1..])
  }

  /** A quote is open after `s` if and only if there are an odd number of them. */
  lemma {:induction false} OpenIsOdd(s: string, inQuote: bool)
    ensures OpenAfter(s, inQuote) <==> (Quotes(s) + (if inQuote then 1 else 0)) % 2 == 1
  {
    if s != "" {
      OpenIsOdd(s[1..], if s[0] == '"' then !inQuote else inQuote);
    }
  }

  /** A blank at `k` that no quote is open at. */
  predicate BreaksAt(s: string, k: nat)
    requires k < |s|
  {
    IsSpace(s[k]) && Quotes(s[..k]) % 2 == 0
  }

  /** The text without its quotes. */
  function Unquoted(s: string): string {
    if s == "" then "" else (if s[0] == '"' then "" else [s[0]]) + Unquoted(s[1..])
  }

  lemma {:induction false} UnquotedOfConcat(a: string, b: string)
    ensures Unquoted(a + b) == Unquoted(a) + Unquoted(b)
  {
    if a == "" {
      assert a + b == b;
    } else {
      assert (a + b)[1..] == a[1..] + b;
      UnquotedOfConcat(a[1..], b);
    }
  }

  lemma {:induction false} UnquotedOfQuoteless(s: string)
    requires '"' !in s
    ensures Unquoted(s) == s
  {
    if s != "" {
      UnquotedOfQuoteless(s[1..]);
    }
  }

  // ---- Tokens break at unquoted blanks -------------------------------------

  lemma {:induction false} SplitFrom(a: string, c: char, b: string, cur: string, inQuote: bool)
    requires !OpenAfter(a, inQuote) && IsSpace(c)
    ensures TokensFrom(a + [c] + b, cur, inQuote) == TokensFrom(a, cur, inQuote) + Tokens(b)
    decreases |a|
  {
    var s := a + [c] + b;
    if a == "" {
      assert s[0] == c && s[1..] == b;
    } else {
      assert s[0] == a[0] && s[1..] == a[1..] + [c] + b;
      if a[0] == '"' {
        SplitFrom(a[1..], c, b, cur, !inQuote);
      } else if IsSpace(a[0]) && !inQuote {
        SplitFrom(a[1..], c, b, "", false);
      } else {
        SplitFrom(a[1..], c, b, cur + [a[0]], inQuote);
      }
    }
  }

  /** At an unquoted blank the text falls into two that tokenize apart. */
  lemma TokensAtBreak(s: string, k: nat)
    requires k < |s| && BreaksAt(s, k)
    ensures Tokens(s) == Tokens(s[..k]) + Tokens(s[k + 1..])
  {
    OpenIsOdd(s[..k], false);
    SplitFrom(s[..k], s[k], s[k + 1..], "", false);
    assert s == s[..k] + [s[k]] + s[k + 1..];
  }

  // ---- And nowhere else ----------------------------------------------------

  /** Every blank has a quote open at it, when one is open at the start or not. */
  predicate AllBlanksQuoted(s: string, inQuote: bool) {
    forall k :: 0 <= k < |s| && IsSpace(s[k]) ==> (Quotes(s[..k]) + (if inQuote then 1 else 0)) % 2 == 1
  }

  lemma QuotedRest(s: string, inQuote: bool)
    requires s != "" && AllBlanksQuoted(s, inQuote)
    ensures AllBlanksQuoted(s[1..], if s[0] == '"' then !inQuote else inQuote)
    ensures IsSpace(s[0]) ==> inQuote
  {
    forall k | 0 <= k < |s| - 1 && IsSpace(s[1..][k])
      ensures Quotes(s[..k + 1]) == (if s[0] == '"' then 1 else 0) + Quotes(s[1..][..k])
    {
      assert s[..k + 1][1..] == s[1..][..k];
    }
    assert IsSpace(s[0]) ==> Quotes(s[..0]) == 0;
  }

  lemma {:induction false} OneTokenFrom(s: string, cur: string, inQuote: bool)
    requires AllBlanksQuoted(s, inQuote)
    ensures TokensFrom(s, cur, inQuote) == Flush(cur + Unquoted(s))
    decreases |s|
  {
    if s == "" {
      assert cur + "" == cur;
    } else {
      QuotedRest(s, inQuote);
      if s[0] == '"' {
        OneTokenFrom(s[1..], cur, !inQuote);
        assert "" + Unquoted(s[1..]) == Unquoted(s[1..]);
      } else {
        OneTokenFrom(s[1..], cur + [s[0]], inQuote);
        assert (cur + [s[0]]) + Unquoted(s[1..]) == cur + ([s[0]] + Unquoted(s[1..]));
      }
    }
  }

  /** A text that does not break is one token, without its quotes, or none if nothing is left. */
  lemma OneToken(s: string)
    requires forall k :: 0 <= k < |s| ==> !BreaksAt(s, k)
    ensures Tokens(s) == if Unquoted(s) == "" then [] else [Unquoted(s)]
  {
    assert forall k :: 0 <= k < |s| && IsSpace(s[k]) ==> !BreaksAt(s, k);
    OneTokenFrom(s, "", false);
    assert "" + Unquoted(s) == Unquoted(s);
  }

  /** A word without quotes is its own token. */
  lemma PlainWord(t: string)
    requires IsWord(t) && '"' !in t
    ensures Tokens(t) == [t]
  {
    OneToken(t);
    UnquotedOfQuoteless(t);
  }

  lemma {:induction false} QuotesOfQuoteless(s: string)
    requires '"' !in s
    ensures Quotes(s) == 0
  {
    if s != "" {
      QuotesOfQuoteless(s[1..]);
    }
  }

  lemma {:induction false} QuotesOfConcat(a: string, b: string)
    ensures Quotes(a + b) == Quotes(a) + Quotes(b)
  {
    if a == "" {
      assert a + b == b;
    } else {
      assert (a + b)[1..] == a[1..] + b;
      QuotesOfConcat(a[1..], b);
    }
  }

  /** A quoted phrase, blanks and all, is part of the token around it. */
  lemma QuotedPhrase(a: string, b: string, c: string)
    requires '"' !in a && '"' !in b && '"' !in c && a + b + c != ""
    requires forall k :: 0 <= k < |a| ==> !IsSpace(a[k])
    requires forall k :: 0 <= k < |c| ==> !IsSpace(c[k])
    ensures Tokens(a + Quote(b) + c) == [a + b + c]
  {
    var s := a + Quote(b) + c;
    forall k | 0 <= k < |s|
      ensures !BreaksAt(s, k)
    {
      if IsSpace(s[k]) {
        PhraseIsOpen(a, b, c, k);
      }
    }
    OneToken(s);
    UnquotedOfConcat(a + Quote(b), c);
    UnquotedOfConcat(a, Quote(b));
    UnquotedOfConcat("\"" + b, "\"");
    UnquotedOfConcat("\"", b);
    UnquotedOfQuoteless(a);
    UnquotedOfQuoteless(b);
    UnquotedOfQuoteless(c);
    assert Unquoted("\"") == "" && Quote(b) == "\"" + b + "\"";
    assert "" + b + "" == b;
  }

  lemma PhraseIsOpen(a: string, b: string, c: string, k: nat)
    requires '"' !in a && '"' !in b && '"' !in c
    requires forall i :: 0 <= i < |a| ==> !IsSpace(a[i])
    requires forall i :: 0 <= i < |c| ==> !IsSpace(c[i])
    requires k < |a + Quote(b) + c| && IsSpace((a + Quote(b) + c)[k])
    ensures Quotes((a + Quote(b) + c)[..k]) == 1
  {
    var s := a + Quote(b) + c;
    var i := k - |a| - 1;
    assert 0 <= i < |b| && s[k] == b[i];
    assert s[..k] == a + ("\"" + b[..i]);
    QuotesOfConcat(a, "\"" + b[..i]);
    QuotesOfConcat("\"", b[..i]);
    QuotesOfQuoteless(a);
    QuotesOfQuoteless(b[..i]);
    assert Quotes("\"") == 1;
  }

  // ---- All that is kept ----------------------------------------------------

  /** The characters of `s` that are neither quotes nor unquoted blanks, in order. */
  function Kept(s: string, inQuote: bool): string {
    if s == "" then ""
    else if s[0] == '"' then Kept(s[1..], !inQuote)
    else (if IsSpace(s[0]) && !inQuote then "" else [s[0]]) + Kept(s[1..], inQuote)
  }

  function Concat(ts: seq<string>): string {
    if ts == [] then "" else ts[0] + Concat(ts[1..])
  }

  lemma FlushThen(cur: string, ts: seq<string>)
    ensures Concat(Flush(cur) + ts) == cur + Concat(ts)
  {
    if cur == "" {
      assert Flush(cur) + ts == ts;
    } else {
      assert (Flush(cur) + ts)[1..] == ts;
    }
  }

  lemma {:induction false} KeptFrom(s: string, cur: string, inQuote: bool)
    ensures Concat(TokensFrom(s, cur, inQuote)) == cur + Kept(s, inQuote)
    decreases |s|
  {
    if s == "" {
      FlushThen(cur, []);
      assert Flush(cur) + [] == Flush(cur);
    } else if s[0] == '"' {
      KeptFrom(s[1..], cur, !inQuote);
    } else if IsSpace(s[0]) && !inQuote {
      KeptFrom(s[1..], "", false);
      FlushThen(cur, TokensFrom(s[1..], "", false));
    } else {
      KeptFrom(s[1..], cur + [s[0]], inQuote);
    }
  }

  /** The tokens end to end are the text without its quotes and its unquoted blanks. */
  lemma TokensKeepText(s: string)
    ensures Concat(Tokens(s)) == Kept(s, false)
  {
    KeptFrom(s, "", false);
  }
}
