/**
 * The shape every custom-property printer of the theme emits: one
 * `:root{...}` block holding `--<property>:<value>;` declarations. The
 * parser is the partner of the printers: it reads a block back into its
 * (property, value) pairs.
 */
module Css {
  import opened Php

  function Decl(prop: string, value: string): string
  {
    "--" + prop + ":" + value + ";"
  }

  function Decls(pairs: seq<(string, string)>): string
  {
    if pairs == [] then "" else Decl(pairs[0].0, pairs[0].1) + Decls(pairs[1..])
  }

  function Root(body: string): string
  {
    ":root{" + body + "}"
  }

  /** A block whose body starts with `first` starts with `:root{` and `first`. */
  lemma RootStartsWith(first: string, rest: string)
    ensures |":root{" + first| <= |Root(first + rest)|
    ensures Root(first + rest)[..|":root{" + first|] == ":root{" + first
  {
    assert Root(first + rest) == (":root{" + first) + (rest + "}");
  }

  /** A block printed in two runs, the opening with the first part of the body and then the rest. */
  lemma RootAppend(first: string, rest: string)
    ensures (":root{" + first) + rest + "}" == Root(first + rest)
  {
  }

  /** One pair is printed as one declaration. */
  lemma DeclsSingle(p: (string, string))
    ensures Decls([p]) == Decl(p.0, p.1)
  {
    assert [p][1..] == [];
  }

  /** A block of one declaration as one run of text. */
  lemma RootOfDecl(prop: string, value: string)
    ensures Root(Decl(prop, value)) == (":root{--" + prop + ":") + value + ";}"
  {
  }

  lemma {:induction false} DeclsSnoc(pairs: seq<(string, string)>, p: (string, string))
    ensures Decls(pairs + [p]) == Decls(pairs) + Decl(p.0, p.1)
  {
    if pairs == [] {
      assert [p][1..] == [];
    } else {
      assert (pairs + [p])[1..] == pairs[1..] + [p];
      DeclsSnoc(pairs[1..], p);
    }
  }

  /** The declarations of one more pair of a list. */
  lemma DeclsPrefixSnoc(pairs: seq<(string, string)>, i: nat)
    requires i < |pairs|
    ensures Decls(pairs[..i + 1]) == Decls(pairs[..i]) + Decl(pairs[i].0, pairs[i].1)
  {
    assert pairs[..i + 1] == pairs[..i] + [pairs[i]];
    DeclsSnoc(pairs[..i], pairs[i]);
  }

  /** The declarations of a whole list, as the last prefix. */
  lemma DeclsWhole(pairs: seq<(string, string)>)
    ensures Decls(pairs[..|pairs|]) == Decls(pairs)
  {
    assert pairs[..|pairs|] == pairs;
  }

  /** The text before the first c and the text after it. */
  function SplitAt(s: string, c: char): (r: Option<(string, string)>)
    ensures r.Some? ==> c !in r.value.0 && s == r.value.0 + [c] + r.value.1
    ensures r.None? ==> c !in s
  {
    if s == [] then None
    else if s[0] == c then Some(([], s[1..]))
    else match SplitAt(s[1..], c)
      case None => None
      case Some(parts) => Some(([s[0]] + parts.0, parts.1))
  }

  lemma {:induction false} SplitAtFirst(p: string, c: char, t: string)
    requires c !in p
    ensures SplitAt(p + [c] + t, c) == Some((p, t))
  {
    var s := p + [c] + t;
    if p == [] {
      assert s[0] == c && s[1..] == t;
    } else {
      assert s[0] == p[0] && p[0] != c;
      assert s[1..] == p[1..] + [c] + t;
      SplitAtFirst(p[1..], c, t);
      assert [p[0]] + p[1..] == p;
    }
  }

  /** Reads a run of declarations back; None when the text is not one. */
  function ParseDecls(s: string): Option<seq<(string, string)>>
    decreases |s|
  {
    if s == [] then Some([])
    else if |s| >= 2 && s[..2] == "--" then
      match SplitAt(s[2..], ':')
      case None => None
      case Some(head) =>
        match SplitAt(head.1, ';')
        case None => None
        case Some(body) =>
          match ParseDecls(body.1)
          case None => None
          case Some(rest) => Some([(head.0, body.0)] + rest)
    else None
  }

  /** Reads a `:root{...}` block back into its declarations. */
  function ParseRoot(s: string): Option<seq<(string, string)>>
  {
    if |s| >= 7 && s[..6] == ":root{" && s[|s| - 1] == '}' then ParseDecls(s[6..|s| - 1]) else None
  }

  /** A pair the printer can emit unambiguously: no ':' in the property, no ';' in the value. */
  predicate Clean(p: (string, string))
  {
    ':' !in p.0 && ';' !in p.1
  }

  lemma {:induction false} ParseDeclsRoundTrip(pairs: seq<(string, string)>)
    requires forall i :: 0 <= i < |pairs| ==> Clean(pairs[i])
    ensures ParseDecls(Decls(pairs)) == Some(pairs)
  {
    if pairs != [] {
      var p, v := pairs[0].0, pairs[0].1;
      var tail := Decls(pairs[1..]);
      var s := Decls(pairs);
      assert s == "--" + (p + [':'] + (v + [';'] + tail));
      assert s[..2] == "--";
      assert s[2..] == p + [':'] + (v + [';'] + tail);
      SplitAtFirst(p, ':', v + [';'] + tail);
      SplitAtFirst(v, ';', tail);
      ParseDeclsRoundTrip(pairs[1..]);
      assert [(p, v)] + pairs[1..] == pairs;
    }
  }

  /**
   * A block printed from clean pairs reads back as exactly those pairs, in
   * the same order: one declaration per pair and nothing else.
   */
  lemma ParseRootRoundTrip(pairs: seq<(string, string)>)
    requires forall i :: 0 <= i < |pairs| ==> Clean(pairs[i])
    ensures ParseRoot(Root(Decls(pairs))) == Some(pairs)
  {
    var body := Decls(pairs);
    var s := Root(body);
    assert s[..6] == ":root{";
    assert s[6..|s| - 1] == body;
    ParseDeclsRoundTrip(pairs);
  }
}
