/**
 * The string sanitisers and concise signatures of `Utilities` (utils/Utilities.ts).
 * The shared regular expression `/[^a-z0-9_\-\.]/ig` matches every character that is
 * not an ASCII letter of either case, a digit, `_`, `-` or `.`.
 */
module Utilities {
  import opened Wrappers
  import opened Text
  import opened Api

  /** A character the regular expression does NOT match. */
  predicate IsFilenameChar(c: char) {
    ('a' <= c <= 'z') || ('A' <= c <= 'Z') || ('0' <= c <= '9') || c == '_' || c == '-' || c == '.'
  }

  /** A character that may appear in a safe filename or header link: `[a-z0-9_.-]`. */
  predicate IsLowerFilenameChar(c: char) {
    ('a' <= c <= 'z') || ('0' <= c <= '9') || c == '_' || c == '-' || c == '.'
  }

  /** `name.replace(/[^a-z0-9_\-\.]/ig, replacement)`. */
  function ReplaceBad(name: string, replacement: string): string {
    if name == [] then []
    else (if IsFilenameChar(name[0]) then [name[0]] else replacement) + ReplaceBad(name[1..], replacement)
  }

  /** Lower-casing of one character; only ASCII characters ever reach it in this module. */
  function LowerChar(c: char): char {
    if 'A' <= c <= 'Z' then (c as int + 32) as char else c
  }

  /** `s.toLowerCase()` / `s.toLocaleLowerCase()` on a string of ASCII characters. */
  function ToLower(s: string): (r: string) {
    seq(|s|, i requires 0 <= i < |s| => LowerChar(s[i]))
  }

  /** `s.replace(a, b)` with a one-character string pattern: only the first occurrence is replaced. */
  function ReplaceFirst(s: string, a: char, b: char): string {
    var i := IndexOf(s, a);
    if i < 0 then s else s[..i] + [b] + s[i + 1..]
  }

  /** `getSafeFilenameForName`: bad characters become `_`, then everything is lower-cased. */
  function SafeFilename(name: string): string {
    ToLower(ReplaceBad(name, "_"))
  }

  /** `getImportName`: bad characters are deleted. */
  function ImportName(name: string): string {
    ReplaceBad(name, "")
  }

  /** `getHeaderLinkForName`: the first `(` becomes `-`, bad characters are deleted, then lower-cased. */
  function HeaderLink(name: string): string {
    ToLower(ReplaceBad(ReplaceFirst(name, '(', '-'), ""))
  }

  /** Replacing by one character keeps each position: a good character stays, a bad one becomes the replacement. */
  lemma {:induction false} ReplaceBadByChar(name: string, c: char)
    ensures |ReplaceBad(name, [c])| == |name|
    ensures forall i :: 0 <= i < |name| ==>
      ReplaceBad(name, [c])[i] == if IsFilenameChar(name[i]) then name[i] else c
  {
    if name != [] {
      ReplaceBadByChar(name[1..], c);
      var r := ReplaceBad(name, [c]);
      assert r == [if IsFilenameChar(name[0]) then name[0] else c] + ReplaceBad(name[1..], [c]);
      forall i | 0 <= i < |name|
        ensures r[i] == if IsFilenameChar(name[i]) then name[i] else c
      {
        if i > 0 { assert name[1..][i - 1] == name[i]; }
      }
    }
  }

  /**
   * `getSafeFilenameForName` maps each character to exactly one character: a good one
   * to its lower-case form, a bad one to `_`; so the result has the input's length and
   * holds only characters of `[a-z0-9_.-]`.
   */
  lemma SafeFilenameShape(name: string)
    ensures |SafeFilename(name)| == |name|
    ensures forall i :: 0 <= i < |name| ==>
      SafeFilename(name)[i] == if IsFilenameChar(name[i]) then LowerChar(name[i]) else '_'
    ensures forall i :: 0 <= i < |name| ==> IsLowerFilenameChar(SafeFilename(name)[i])
  {
    ReplaceBadByChar(name, '_');
  }

  /** A name already made of `[a-z0-9_.-]` is its own safe filename. */
  lemma SafeFilenameOfSafe(name: string)
    requires forall i :: 0 <= i < |name| ==> IsLowerFilenameChar(name[i])
    ensures SafeFilename(name) == name
  {
    SafeFilenameShape(name);
  }

  /** `getSafeFilenameForName` is idempotent. */
  lemma SafeFilenameIdempotent(name: string)
    ensures SafeFilename(SafeFilename(name)) == SafeFilename(name)
  {
    SafeFilenameShape(name);
    SafeFilenameOfSafe(SafeFilename(name));
  }

  /** A safe filename never holds a path separator, an anchor mark or a space. */
  lemma SafeFilenameHasNoSeparator(name: string)
    ensures '/' !in SafeFilename(name) && '#' !in SafeFilename(name) && ' ' !in SafeFilename(name)
  {
    SafeFilenameShape(name);
    var r := SafeFilename(name);
    forall i | 0 <= i < |r| ensures r[i] != '/' && r[i] != '#' && r[i] != ' ' {
      assert IsLowerFilenameChar(r[i]);
    }
  }

  /** Deleting bad characters distributes over concatenation. */
  lemma ImportNameConcat(a: string, b: string)
    ensures ImportName(a + b) == ImportName(a) + ImportName(b)
  {
    ReplaceBadConcat(a, b, "");
  }

  lemma {:induction false} ReplaceBadConcat(a: string, b: string, replacement: string)
    ensures ReplaceBad(a + b, replacement) == ReplaceBad(a, replacement) + ReplaceBad(b, replacement)
  {
    if a == [] {
      assert a + b == b;
    } else {
      assert (a + b)[0] == a[0];
      assert (a + b)[1..] == a[1..] + b;
      ReplaceBadConcat(a[1..], b, replacement);
    }
  }

  /**
   * `getImportName` keeps each good character in order and case and drops each bad one:
   * the result is never longer than the input, holds only good characters, and is the
   * input itself exactly when the input has no bad character.
   */
  lemma {:induction false} ImportNameShape(name: string)
    ensures |ImportName(name)| <= |name|
    ensures forall i :: 0 <= i < |ImportName(name)| ==> IsFilenameChar(ImportName(name)[i])
    ensures ImportName(name) == name <==> forall i :: 0 <= i < |name| ==> IsFilenameChar(name[i])
  {
    if name != [] {
      ImportNameShape(name[1..]);
      var r := ImportName(name);
      assert r == (if IsFilenameChar(name[0]) then [name[0]] else []) + ImportName(name[1..]);
      if forall i :: 0 <= i < |name| ==> IsFilenameChar(name[i]) {
        assert forall i :: 0 <= i < |name[1..]| ==> IsFilenameChar(name[1..][i]);
      }
      if !IsFilenameChar(name[0]) {
        assert |r| < |name|;
      } else if r == name {
        assert ImportName(name[1..]) == name[1..];
      }
    }
  }

  /** `getImportName` is idempotent. */
  lemma ImportNameIdempotent(name: string)
    ensures ImportName(ImportName(name)) == ImportName(name)
  {
    ImportNameShape(name);
    ImportNameShape(ImportName(name));
  }

  /** Lower-casing keeps `[a-z0-9_.-]` membership for good characters. */
  lemma ToLowerOfGood(s: string)
    requires forall i :: 0 <= i < |s| ==> IsFilenameChar(s[i])
    ensures forall i :: 0 <= i < |ToLower(s)| ==> IsLowerFilenameChar(ToLower(s)[i])
  {
  }

  /** `getHeaderLinkForName` yields only characters of `[a-z0-9_.-]`. */
  lemma HeaderLinkChars(name: string)
    ensures forall i :: 0 <= i < |HeaderLink(name)| ==> IsLowerFilenameChar(HeaderLink(name)[i])
  {
    var replaced := ReplaceFirst(name, '(', '-');
    ImportNameShape(replaced);
    ToLowerOfGood(ImportName(replaced));
  }

  /**
   * The `(` replacement matters only for the first parenthesis: it yields a `-` where
   * the bracket stood, and later brackets are deleted with the other bad characters.
   */
  lemma HeaderLinkOfCall(fn: string, args: string)
    requires '(' !in fn
    ensures HeaderLink(fn + "(" + args) == ToLower(ImportName(fn) + "-" + ImportName(args))
  {
    var s := fn + "(" + args;
    IndexOfAfter(fn, '(', args);
    assert s[..|fn|] == fn && s[|fn| + 1..] == args;
    assert ReplaceFirst(s, '(', '-') == fn + "-" + args;
    ImportNameConcat(fn + "-", args);
    ImportNameConcat(fn, "-");
    assert ImportName("-") == "-";
    assert ReplaceBad(fn + "-" + args, "") == ImportName(fn) + "-" + ImportName(args);
  }

  /** The names of a parameter list, in order. */
  function ParameterNames(ps: seq<Parameter>): (names: seq<string>)
    ensures |names| == |ps| && forall i :: 0 <= i < |ps| ==> names[i] == ps[i].name
  {
    seq(|ps|, i requires 0 <= i < |ps| => ps[i].name)
  }

  /** `displayName(p1, p2, ...)` for a parameter-list item named `displayName`. */
  function SignatureOf(displayName: string, pl: ParameterList): string {
    displayName + "(" + Join(ParameterNames(pl.parameters), ", ") + ")"
  }

  /** `getConciseSignature`. */
  function ConciseSignature(item: ApiItem): string {
    match item.parameterList
    case Some(pl) => SignatureOf(item.displayName, pl)
    case None => item.displayName
  }

  /** `getGrafanaConciseSignature`: for constructors, the display name first loses its bad characters. */
  function GrafanaConciseSignature(item: ApiItem): string {
    var displayName :=
      if item.kind == ConstructSignature || item.kind == Constructor then ImportName(item.displayName)
      else item.displayName;
    match item.parameterList
    case Some(pl) => SignatureOf(displayName, pl)
    case None => displayName
  }

  /** The concise signature of a parameter-list item is its name, `(`, the names joined by `, `, `)`. */
  lemma ConciseSignatureShape(item: ApiItem)
    ensures item.parameterList.None? ==> ConciseSignature(item) == item.displayName
    ensures item.parameterList.Some? ==>
      && StartsWith(ConciseSignature(item), item.displayName + "(")
      && EndsWith(ConciseSignature(item), ")")
      && ConciseSignature(item)[|item.displayName| + 1..|ConciseSignature(item)| - 1]
         == Join(ParameterNames(item.parameterList.value.parameters), ", ")
  {
    if item.parameterList.Some? {
      var names := Join(ParameterNames(item.parameterList.value.parameters), ", ");
      var r := ConciseSignature(item);
      assert r == item.displayName + "(" + names + ")";
      assert r[..|item.displayName| + 1] == item.displayName + "(";
      assert r[|item.displayName| + 1..|r| - 1] == names;
    }
  }

  /**
   * The Grafana concise signature is the concise signature, except that a constructor's
   * display name is first stripped of bad characters.
   */
  lemma GrafanaConciseSignatureIsConcise(item: ApiItem)
    ensures item.kind != Constructor && item.kind != ConstructSignature ==>
      GrafanaConciseSignature(item) == ConciseSignature(item)
    ensures item.kind == Constructor || item.kind == ConstructSignature ==>
      GrafanaConciseSignature(item) == ConciseSignature(item.(displayName := ImportName(item.displayName)))
  {
  }
}
