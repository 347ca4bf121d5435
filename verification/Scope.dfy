/** Scan scopes: target normalization, canonical lists and the scope ID. */
module Scope {
  import opened Wrappers
  import opened Ordering
  import opened Targets

  /** `maskedPrefix` and `unmappedAddr` parse with `netip` and print the masked prefix and the unmapped address;
      `digest` is the hex SHA-256 of the canonical JSON. */
  datatype ScopeLibrary = ScopeLibrary(
    maskedPrefix: string -> Option<string>,
    unmappedAddr: string -> Option<string>,
    digest: (seq<string>, seq<int>, seq<int>) -> string
  )

  datatype ScanScope = ScanScope(targets: seq<string>, tcpPorts: seq<int>, udpPorts: seq<int>)

  /** The digest is taken to be free of collisions; a hex string is never empty. */
  ghost predicate CollisionFree(lib: ScopeLibrary) {
    && (forall t, p, u :: lib.digest(t, p, u) != "")
    && forall t, p, u, t', p', u' :: lib.digest(t, p, u) == lib.digest(t', p', u') ==> t == t' && p == p' && u == u'
  }

  function LowerChar(c: char): char {
    if 'A' <= c <= 'Z' then c + ' ' else c
  }

  function ToLower(s: string): (r: string)
    ensures |r| == |s|
  {
    seq(|s|, i requires 0 <= i < |s| => LowerChar(s[i]))
  }

  function TrimDot(s: string): string {
    if s != [] && s[|s| - 1] == '.' then s[..|s| - 1] else s
  }

  function NormalizeScopeTarget(lib: ScopeLibrary, raw: string): string {
    var target := TrimSpace(raw);
    if lib.maskedPrefix(target).Some? then lib.maskedPrefix(target).value
    else if lib.unmappedAddr(target).Some? then lib.unmappedAddr(target).value
    else TrimDot(ToLower(target))
  }

  /** The normalized, non-empty targets. */
  function NormalizedTargets(lib: ScopeLibrary, values: seq<string>): set<string> {
    (set v | v in values :: NormalizeScopeTarget(lib, v)) - {""}
  }

  ghost function CanonicalTargets(lib: ScopeLibrary, values: seq<string>): (r: seq<string>)
    ensures Enumerates(StringLess, r, NormalizedTargets(lib, values))
  {
    StringOrder();
    Enumerate(StringLess, NormalizedTargets(lib, values))
  }

  lemma IntOrder()
    ensures StrictTotalOrder(IntLess)
  {
  }

  ghost function CanonicalPorts(values: seq<int>): (r: seq<int>)
    ensures Enumerates(IntLess, r, Elements(values))
  {
    IntOrder();
    Enumerate(IntLess, Elements(values))
  }

  method BuildCanonicalPorts(values: seq<int>) returns (r: seq<int>)
    ensures r == CanonicalPorts(values)
  {
    IntOrder();
    r := Canonicalize(IntLess, values);
  }

  /** The target loop: normalize, skip empty and repeated names, then sort. */
  method BuildCanonicalTargets(lib: ScopeLibrary, values: seq<string>) returns (r: seq<string>)
    ensures r == CanonicalTargets(lib, values)
  {
    var seen: set<string> := {};
    var results: seq<string> := [];
    for i := 0 to |values|
      invariant seen == Elements(results) == NormalizedTargets(lib, values[..i])
      invariant Distinct(results)
    {
      assert values[..i + 1] == values[..i] + [values[i]];
      var item := NormalizeScopeTarget(lib, values[i]);
      if item != "" && item !in seen {
        seen := seen + {item};
        assert forall j | 0 <= j < |results| :: results[j] in Elements(results);
        results := results + [item];
      }
    }
    assert values[..|values|] == values;
    StringOrder();
    TotalOrderIsWeak(StringLess);
    r := Sort(StringLess, results);
    SortedDistinctEnumerates(StringLess, results, r);
    EnumerationIsUnique(StringLess, r, CanonicalTargets(lib, values), Elements(results));
  }

  /** Canonical lists of two inputs are equal exactly when the underlying sets are. */
  lemma CanonicalListsAreSets(lib: ScopeLibrary, a: seq<string>, b: seq<string>, p: seq<int>, q: seq<int>)
    ensures CanonicalTargets(lib, a) == CanonicalTargets(lib, b)
       <==> NormalizedTargets(lib, a) == NormalizedTargets(lib, b)
    ensures CanonicalPorts(p) == CanonicalPorts(q) <==> Elements(p) == Elements(q)
  {
    StringOrder();
    IntOrder();
  }

  ghost function ScopeID(lib: ScopeLibrary, s: ScanScope): string {
    lib.digest(CanonicalTargets(lib, s.targets), CanonicalPorts(s.tcpPorts), CanonicalPorts(s.udpPorts))
  }

  /** `ScanScope.ID`. */
  method BuildScopeID(lib: ScopeLibrary, s: ScanScope) returns (id: string)
    ensures id == ScopeID(lib, s)
  {
    var targets := BuildCanonicalTargets(lib, s.targets);
    var tcp := BuildCanonicalPorts(s.tcpPorts);
    var udp := BuildCanonicalPorts(s.udpPorts);
    id := lib.digest(targets, tcp, udp);
  }

  /** Two scans share a scope ID exactly when they share normalized targets and both port sets. */
  lemma ScopeIDIdentifiesScope(lib: ScopeLibrary, a: ScanScope, b: ScanScope)
    requires CollisionFree(lib)
    ensures ScopeID(lib, a) == ScopeID(lib, b)
       <==> && NormalizedTargets(lib, a.targets) == NormalizedTargets(lib, b.targets)
            && Elements(a.tcpPorts) == Elements(b.tcpPorts)
            && Elements(a.udpPorts) == Elements(b.udpPorts)
  {
    CanonicalListsAreSets(lib, a.targets, b.targets, a.tcpPorts, b.tcpPorts);
    CanonicalListsAreSets(lib, a.targets, b.targets, a.udpPorts, b.udpPorts);
  }

  predicate HostName(lib: ScopeLibrary, target: string) {
    lib.maskedPrefix(target).None? && lib.unmappedAddr(target).None?
  }

  // ---------------------------------------------------------------- which targets are the same target

  /** The same character, or the two cases of one letter from A to Z. */
  predicate CaseVariant(c: char, d: char) {
    c == d || ('A' <= c <= 'Z' && d as int == c as int + 32) || ('A' <= d <= 'Z' && c as int == d as int + 32)
  }

  predicate CaseVariants(s: string, t: string) {
    |s| == |t| && forall i | 0 <= i < |s| :: CaseVariant(s[i], t[i])
  }

  lemma LowerCharDecidesCase(c: char, d: char)
    ensures LowerChar(c) == LowerChar(d) <==> CaseVariant(c, d)
    ensures !('A' <= LowerChar(c) <= 'Z')
  {
  }

  /** Lower-casing identifies exactly the case variants, and leaves no capital. */
  lemma LowerDecidesCase(s: string, t: string)
    ensures ToLower(s) == ToLower(t) <==> CaseVariants(s, t)
    ensures forall i | 0 <= i < |s| :: !('A' <= ToLower(s)[i] <= 'Z')
  {
    forall i | 0 <= i < |s| && i < |t| ensures ToLower(s)[i] == ToLower(t)[i] <==> CaseVariant(s[i], t[i]) {
      LowerCharDecidesCase(s[i], t[i]);
    }
    forall i | 0 <= i < |s| ensures !('A' <= ToLower(s)[i] <= 'Z') {
      LowerCharDecidesCase(s[i], s[i]);
    }
  }

  /** A host name as it is usually written: no outer white space and no final dot. */
  predicate PlainName(lib: ScopeLibrary, s: string) {
    s != "" && Tight(s) && HostName(lib, s) && s[|s| - 1] != '.'
  }

  /** Two plain host names are the same target exactly when they differ in the case of letters only. */
  lemma NamesIgnoreCase(lib: ScopeLibrary, s: string, t: string)
    requires PlainName(lib, s) && PlainName(lib, t)
    ensures NormalizeScopeTarget(lib, s) == NormalizeScopeTarget(lib, t) <==> CaseVariants(s, t)
    ensures NormalizeScopeTarget(lib, s) != ""
  {
    TrimSpaceIsTight(s);
    TrimSpaceIsTight(t);
    LowerKeepsShape(s);
    LowerKeepsShape(t);
    LowerDecidesCase(s, t);
  }

  /** Outer white space changes nothing. */
  lemma TargetsIgnorePadding(lib: ScopeLibrary, s: string, left: string, right: string)
    requires Tight(s) && AllSpace(left) && AllSpace(right)
    ensures NormalizeScopeTarget(lib, left + s + right) == NormalizeScopeTarget(lib, s)
  {
    TrimSpaceIsTight(s);
    TrimOfPadded(left, s, right);
  }

  lemma LowerOfDotted(s: string)
    ensures ToLower(s + ".") == ToLower(s) + "."
  {
  }

  /** And nor does one final dot of a host name. */
  lemma NamesIgnoreFinalDot(lib: ScopeLibrary, s: string)
    requires PlainName(lib, s) && HostName(lib, s + ".")
    ensures NormalizeScopeTarget(lib, s + ".") == NormalizeScopeTarget(lib, s)
  {
    TrimSpaceIsTight(s);
    TrimSpaceIsTight(s + ".");
    LowerKeepsShape(s);
    LowerOfDotted(s);
    assert TrimDot(ToLower(s) + ".") == ToLower(s);
  }

  /** Two prefixes, or two addresses, are the same target exactly when they are printed the same. */
  lemma PrintedFormsDecide(lib: ScopeLibrary, s: string, t: string)
    requires Tight(s) && Tight(t)
    ensures lib.maskedPrefix(s).Some? && lib.maskedPrefix(t).Some? ==>
      (NormalizeScopeTarget(lib, s) == NormalizeScopeTarget(lib, t) <==> lib.maskedPrefix(s) == lib.maskedPrefix(t))
    ensures lib.maskedPrefix(s).None? && lib.maskedPrefix(t).None? && lib.unmappedAddr(s).Some? && lib.unmappedAddr(t).Some? ==>
      (NormalizeScopeTarget(lib, s) == NormalizeScopeTarget(lib, t) <==> lib.unmappedAddr(s) == lib.unmappedAddr(t))
  {
    TrimSpaceIsTight(s);
    TrimSpaceIsTight(t);
  }

  /** So scans of one host name share a scope exactly when the names differ in case only. */
  lemma ScopesIgnoreCase(lib: ScopeLibrary, s: string, t: string, tcp: seq<int>, udp: seq<int>)
    requires CollisionFree(lib) && PlainName(lib, s) && PlainName(lib, t)
    ensures ScopeID(lib, ScanScope([s], tcp, udp)) == ScopeID(lib, ScanScope([t], tcp, udp)) <==> CaseVariants(s, t)
  {
    NamesIgnoreCase(lib, s, t);
    NamesIgnoreCase(lib, t, s);
    ScopeIDIdentifiesScope(lib, ScanScope([s], tcp, udp), ScanScope([t], tcp, udp));
    OneTarget(lib, s);
    OneTarget(lib, t);
    if NormalizeScopeTarget(lib, s) == NormalizeScopeTarget(lib, t) {
      assert NormalizedTargets(lib, [s]) == NormalizedTargets(lib, [t]);
    } else {
      assert NormalizeScopeTarget(lib, s) !in NormalizedTargets(lib, [t]);
    }
  }

  lemma OneTarget(lib: ScopeLibrary, s: string)
    requires NormalizeScopeTarget(lib, s) != ""
    ensures forall x :: x in NormalizedTargets(lib, [s]) <==> x == NormalizeScopeTarget(lib, s)
  {
    assert s in [s];
  }

  /** The laws of printing: what `netip` prints for a trimmed text has no outer white space and
      parses, in the same way, to what prints the same. */
  ghost predicate PrintsCanonically(lib: ScopeLibrary) {
    forall t | Tight(t) ::
      && (lib.maskedPrefix(t).Some? ==> CanonicalText(lib, lib.maskedPrefix(t).value))
      && (lib.maskedPrefix(t).None? && lib.unmappedAddr(t).Some? ==> CanonicalText(lib, lib.unmappedAddr(t).value))
  }

  /** A prefix or an address in the form in which it is printed. */
  predicate CanonicalText(lib: ScopeLibrary, s: string) {
    && Tight(s)
    && (lib.maskedPrefix(s) == Some(s) || (lib.maskedPrefix(s).None? && lib.unmappedAddr(s) == Some(s)))
  }

  /** A name whose final dot hides another dot or white space. */
  predicate HidesSuffix(target: string) {
    |target| >= 2 && target[|target| - 1] == '.' && (target[|target| - 2] == '.' || IsSpace(target[|target| - 2]))
  }

  /** The final dot hides nothing that a second normalization would see: another dot, white space,
      or a prefix or address in other than its printed form. */
  predicate SettlesAtOnce(lib: ScopeLibrary, target: string) {
    var name := TrimDot(ToLower(target));
    || !HostName(lib, target)
    || (if HostName(lib, TrimSpace(name)) then !HidesSuffix(target) else CanonicalText(lib, name))
  }

  lemma LowerKeepsShape(s: string)
    ensures forall i | 0 <= i < |s| :: (IsSpace(ToLower(s)[i]) <==> IsSpace(s[i])) && (ToLower(s)[i] == '.' <==> s[i] == '.')
    ensures ToLower(ToLower(s)) == ToLower(s)
  {
  }

  /** Normalization is idempotent on exactly the targets that settle at once: all prefixes and addresses,
      and the host names whose final dot hides nothing. */
  lemma NormalizationIsIdempotentWhenSettled(lib: ScopeLibrary, raw: string)
    requires PrintsCanonically(lib)
    ensures NormalizeScopeTarget(lib, NormalizeScopeTarget(lib, raw)) == NormalizeScopeTarget(lib, raw)
       <==> SettlesAtOnce(lib, TrimSpace(raw))
  {
    var t := TrimSpace(raw);
    TrimSpaceIsTight(raw);
    TrimSpaceIsTight(NormalizeScopeTarget(lib, raw));
    if HostName(lib, t) {
      var u := TrimDot(ToLower(t));
      if HostName(lib, TrimSpace(u)) {
        PlainNameSettles(lib, raw);
      } else if NormalizeScopeTarget(lib, u) == u {
        assert CanonicalText(lib, u);
      }
    }
  }

  /** The host names that stay host names: a second dot or white space before the final dot is what changes. */
  lemma PlainNameSettles(lib: ScopeLibrary, raw: string)
    requires HostName(lib, TrimSpace(raw)) && HostName(lib, TrimSpace(TrimDot(ToLower(TrimSpace(raw)))))
    ensures NormalizeScopeTarget(lib, NormalizeScopeTarget(lib, raw)) == NormalizeScopeTarget(lib, raw)
       <==> !HidesSuffix(TrimSpace(raw))
  {
    var t := TrimSpace(raw);
    var u := TrimDot(ToLower(t));
    TrimSpaceIsTight(raw);
    LowerKeepsShape(t);
    TrimSpaceIsTight(u);
    LowerOfLower(t);
    if HidesSuffix(t) {
      assert u[|u| - 1] == ToLower(t)[|t| - 2];
      if IsSpace(u[|u| - 1]) {
        NormalizedIsShorter(u);
      }
    } else {
      assert Tight(u);
    }
  }

  lemma LowerOfLower(t: string)
    ensures ToLower(TrimDot(ToLower(t))) == TrimDot(ToLower(t))
  {
  }

  lemma NormalizedIsShorter(u: string)
    requires u != [] && IsSpace(u[|u| - 1])
    ensures |TrimDot(ToLower(TrimSpace(u)))| < |u|
  {
    TrimSpaceIsTight(u);
    var i := TrimLeftIsSuffix(u);
    var j := TrimRightIsPrefix(TrimLeft(u));
  }

  /** Two concrete targets that change twice: a name with two final dots, and a dotted prefix with host bits. */
  lemma DottedNameNormalizesTwice(lib: ScopeLibrary)
    requires HostName(lib, "A..") && HostName(lib, "a.")
    ensures NormalizeScopeTarget(lib, "A..") == "a." && NormalizeScopeTarget(lib, "a.") == "a"
  {
    TrimSpaceIsTight("A..");
    TrimSpaceIsTight("a.");
    assert ToLower("A..") == "a..";
    assert ToLower("a.") == "a.";
  }

  lemma DottedPrefixNormalizesTwice(lib: ScopeLibrary)
    requires HostName(lib, "10.0.0.5/24.") && lib.maskedPrefix("10.0.0.5/24") == Some("10.0.0.0/24")
    ensures NormalizeScopeTarget(lib, "10.0.0.5/24.") == "10.0.0.5/24"
    ensures NormalizeScopeTarget(lib, "10.0.0.5/24") == "10.0.0.0/24"
    ensures !HidesSuffix("10.0.0.5/24.") && !SettlesAtOnce(lib, "10.0.0.5/24.")
  {
    TrimSpaceIsTight("10.0.0.5/24.");
    TrimSpaceIsTight("10.0.0.5/24");
    assert ToLower("10.0.0.5/24.") == "10.0.0.5/24.";
    assert "10.0.0.5/24."[..11] == "10.0.0.5/24";
    assert "10.0.0.5/24"[7] != "10.0.0.0/24"[7];
  }
}
