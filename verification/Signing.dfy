/** The canonical text an envelope is signed over, and the signature that travels in it. */
module Signing {
  import opened Numbers
  import opened JsonTree

  const PREFIX := "hmac-sha256:v1:"

  /** Keys that reach the canonical text. The signature is left out on purpose; a field called
      `__proto__` is lost because copying it sets the copy's prototype instead of a field. */
  predicate Covered(k: string) { k != "signature" && k != "__proto__" }

  function Rest(fs: seq<Field>): (r: seq<Field>) {
    if fs == [] then []
    else
      var init := Rest(fs[..|fs| - 1]);
      var f := fs[|fs| - 1];
      if Covered(f.key) then SetField(init, f.key, f.val) else init
  }

  function CanonicalText(fs: seq<Field>): string { Stable(Obj(Rest(fs))) }

  method CanonicalizeEnvelope(envelope: seq<Field>) returns (text: string)
    ensures text == CanonicalText(envelope)
  {
    var rest: seq<Field> := [];
    for i := 0 to |envelope|
      invariant rest == Rest(envelope[..i])
    {
      var f := envelope[i];
      if f.key != "signature" {
        if f.key != "__proto__" { rest := SetField(rest, f.key, f.val); }
      }
      assert envelope[..i + 1][..i] == envelope[..i];
    }
    assert envelope[..|envelope|] == envelope;
    text := Stable(Obj(rest));
  }

  ghost predicate Envelope(fs: seq<Field>) { WellFormed(Obj(fs)) }

  lemma {:induction false} RestFields(fs: seq<Field>, k: string)
    requires Envelope(fs)
    ensures k in Keys(Rest(fs)) <==> k in Keys(fs) && Covered(k)
    ensures Covered(k) ==> Find(Rest(fs), k) == Find(fs, k)
  {
    if fs != [] {
      var n := |fs| - 1;
      var init, f := fs[..n], fs[n];
      InitEnvelope(init, f);
      assert fs == init + [f];
      RestFields(init, k);
      SetFieldKeys(Rest(init), f.key, f.val);
      SetFieldFind(Rest(init), f.key, f.val, k);
      SetFieldNew(init, f.key, f.val);
      SetFieldFind(init, f.key, f.val, k);
    }
  }

  lemma {:induction false} RestEnvelope(fs: seq<Field>)
    requires Envelope(fs)
    ensures Envelope(Rest(fs))
  {
    if fs != [] {
      var n := |fs| - 1;
      assert fs == fs[..n] + [fs[n]];
      InitEnvelope(fs[..n], fs[n]);
      RestEnvelope(fs[..n]);
      if Covered(fs[n].key) { SetFieldWellFormed(Rest(fs[..n]), fs[n].key, fs[n].val); }
    }
  }

  lemma InitEnvelope(init: seq<Field>, f: Field)
    requires Envelope(init + [f])
    ensures Envelope(init) && f.key !in Keys(init) && WellFormed(f.val)
    ensures Keys(init + [f]) == Keys(init) + [f.key]
  {
    var fs := init + [f];
    assert Keys(fs) == Keys(init) + [f.key];
    assert Keys(fs)[|init|] == f.key && fs[|init|] == f;
    forall i | 0 <= i < |init| ensures WellFormed(init[i].val) && Keys(init)[i] == Keys(fs)[i] { assert fs[i] == init[i]; }
  }

  /** Two envelopes carry the same signed content, in whatever key order at whatever depth. */
  ghost predicate SameContent(fs: seq<Field>, gs: seq<Field>) {
    forall k :: Covered(k) ==> (k in Keys(fs) <==> k in Keys(gs)) && (k in Keys(fs) ==> Same(Find(fs, k), Find(gs, k)))
  }

  /** The canonical text is a complete invariant of the signed content. */
  lemma CanonicalKernel(fs: seq<Field>, gs: seq<Field>)
    requires Envelope(fs) && Envelope(gs)
    ensures CanonicalText(fs) == CanonicalText(gs) <==> SameContent(fs, gs)
    ensures forall k :: Covered(k) <==> k != "signature" && k != "__proto__"
  {
    RestEnvelope(fs);
    RestEnvelope(gs);
    var a, b := Rest(fs), Rest(gs);
    StableKernel(Obj(a), Obj(b));
    if Same(Obj(a), Obj(b)) {
      forall k | Covered(k)
        ensures (k in Keys(fs) <==> k in Keys(gs)) && (k in Keys(fs) ==> Same(Find(fs, k), Find(gs, k)))
      {
        RestFields(fs, k);
        RestFields(gs, k);
        assert k in Keys(a) <==> k in Keys(b);
      }
    }
    if SameContent(fs, gs) {
      forall k ensures (k in Keys(a) <==> k in Keys(b)) && (k in Keys(a) ==> Same(Find(a, k), Find(b, k))) {
        RestFields(fs, k);
        RestFields(gs, k);
      }
      assert Same(Obj(a), Obj(b));
    }
  }

  /** Adding a field shows in the canonical text exactly when its key is covered. */
  lemma AddedFieldShows(fs: seq<Field>, f: Field)
    requires Envelope(fs + [f])
    ensures CanonicalText(fs + [f]) != CanonicalText(fs) <==> f.key != "signature" && f.key != "__proto__"
  {
    var gs := fs + [f];
    InitEnvelope(fs, f);
    CanonicalKernel(fs, gs);
    if Covered(f.key) {
      assert f.key in Keys(gs);
    } else {
      SetFieldNew(fs, f.key, f.val);
      forall k | Covered(k) && k in Keys(fs) ensures Same(Find(fs, k), Find(gs, k)) {
        SetFieldFind(fs, f.key, f.val, k);
        SameReflexive(Find(fs, k));
      }
    }
  }

  lemma SameReflexive(v: Json)
    requires WellFormed(v)
    ensures Same(v, v)
  {
    StableKernel(v, v);
  }

  // ---------------------------------------------------------------- signatures

  datatype Verdict = Verified | Malformed | UnsupportedAlgorithm | Mismatch

  /** The keyed hash, as lower-case hex of its 32 bytes: mac(secret, text). */
  type Mac = (string, string) -> string

  predicate HexChar(c: char) { '0' <= c <= '9' || 'a' <= c <= 'f' }

  predicate IsHex64(s: string) { |s| == 64 && forall c :: c in s ==> HexChar(c) }

  ghost predicate HexMac(mac: Mac) { forall k, m :: IsHex64(mac(k, m)) }

  function Sign(mac: Mac, envelope: seq<Field>, secret: string): string {
    PREFIX + mac(secret, CanonicalText(envelope))
  }

  predicate LabelChar(c: char) { '0' <= c <= '9' || 'a' <= c <= 'z' || 'A' <= c <= 'Z' || c == '-' }

  /** One or more label characters up to a colon. */
  predicate LabelPrefix(s: string) {
    var name := CutAt(s, ':').0;
    ':' in s && name != "" && forall c :: c in name ==> LabelChar(c)
  }

  predicate DeclaresAlgorithm(s: string) { LabelPrefix(s) && LabelPrefix(CutAt(s, ':').1) }

  function Verify(mac: Mac, envelope: seq<Field>, secret: string): Verdict {
    var sig := Find(envelope, "signature");
    if !sig.Str? || sig.s == "" then Malformed
    else if !(PREFIX <= sig.s) then (if DeclaresAlgorithm(sig.s) then UnsupportedAlgorithm else Malformed)
    else
      var provided := sig.s[|PREFIX|..];
      if !IsHex64(provided) then Malformed
      else if provided == mac(secret, CanonicalText(envelope)) then Verified
      else Mismatch
  }

  /** An envelope verifies exactly when it carries the signature that signing it would produce. */
  lemma VerifiedIffSigned(mac: Mac, envelope: seq<Field>, secret: string)
    requires HexMac(mac)
    ensures Verify(mac, envelope, secret) == Verified <==> Find(envelope, "signature") == Str(Sign(mac, envelope, secret))
  {
    var m := mac(secret, CanonicalText(envelope));
    assert IsHex64(m);
    assert (PREFIX + m)[|PREFIX|..] == m;
    var sig := Find(envelope, "signature");
    if sig.Str? && PREFIX <= sig.s { assert sig.s == PREFIX + sig.s[|PREFIX|..]; }
  }

  lemma {:induction false} CutAtSplits(s: string, c: char)
    requires c in s
    ensures var (a, b) := CutAt(s, c); s == a + [c] + b && c !in a
  {
    if s[0] != c {
      CutAtSplits(s[1..], c);
      assert s == [s[0]] + s[1..];
    } else {
      assert s == [] + [c] + s[1..];
    }
  }

  /** A label: one or more letters, digits or dashes. */
  predicate Label(a: string) {
    a != "" && forall c :: c in a ==> '0' <= c <= '9' || 'a' <= c <= 'z' || 'A' <= c <= 'Z' || c == '-'
  }

  lemma LabelPrefixIff(s: string)
    ensures LabelPrefix(s) <==> exists a, rest :: Label(a) && s == a + ":" + rest
    ensures LabelPrefix(s) ==> s == CutAt(s, ':').0 + ":" + CutAt(s, ':').1 && Label(CutAt(s, ':').0)
  {
    if ':' in s { CutAtSplits(s, ':'); }
    if a, rest :| Label(a) && s == a + ":" + rest {
      CutAtFirst(a, ':', rest);
      assert s[|a|] == ':';
    }
  }

  lemma DeclaresIff(s: string)
    ensures DeclaresAlgorithm(s) <==> exists a, b, rest :: Label(a) && Label(b) && s == a + ":" + b + ":" + rest
  {
    hide Label;
    LabelPrefixIff(s);
    LabelPrefixIff(CutAt(s, ':').1);
    if DeclaresAlgorithm(s) {
      var t := CutAt(s, ':').1;
      assert s == CutAt(s, ':').0 + ":" + CutAt(t, ':').0 + ":" + CutAt(t, ':').1;
    }
    if a, b, rest :| Label(a) && Label(b) && s == a + ":" + b + ":" + rest {
      var t := b + ":" + rest;
      assert s == a + ":" + t;
      assert ':' !in a by { LabelHasNoColon(a); }
      CutAtFirst(a, ':', t);
      LabelPrefixIff(t);
    }
  }

  lemma LabelHasNoColon(a: string)
    requires Label(a)
    ensures ':' !in a
  {
  }

  /** Which verdict is given: another algorithm is declared by two labels; of the supported one, only 64 lower-case
      hex digits are compared with the keyed hash; everything else is malformed. */
  lemma VerdictIs(mac: Mac, envelope: seq<Field>, secret: string)
    ensures var sig, m, v := Find(envelope, "signature"), mac(secret, CanonicalText(envelope)), Verify(mac, envelope, secret);
      && (v == UnsupportedAlgorithm <==>
            sig.Str? && !("hmac-sha256:v1:" <= sig.s) && exists a, b, rest :: Label(a) && Label(b) && sig.s == a + ":" + b + ":" + rest)
      && (v == Mismatch <==>
            exists h: string :: sig == Str("hmac-sha256:v1:" + h) && |h| == 64 && h != m && forall c :: c in h ==> '0' <= c <= '9' || 'a' <= c <= 'f')
      && (v == Verified <==>
            exists h: string :: sig == Str("hmac-sha256:v1:" + h) && |h| == 64 && h == m && forall c :: c in h ==> '0' <= c <= '9' || 'a' <= c <= 'f')
    ensures Sign(mac, envelope, secret) == "hmac-sha256:v1:" + mac(secret, CanonicalText(envelope))
  {
    hide Label, DeclaresAlgorithm, CanonicalText, Find;
    var sig := Find(envelope, "signature");
    if sig.Str? {
      DeclaresIff(sig.s);
      if PREFIX <= sig.s {
        assert sig.s == PREFIX + sig.s[|PREFIX|..];
      }
      forall h | sig.s == PREFIX + h ensures PREFIX <= sig.s && h == sig.s[|PREFIX|..] { assert sig.s[..|PREFIX|] == PREFIX; }
    }
  }

  /** What the SDK builds: the base envelope with its signature attached. */
  function Attach(mac: Mac, base: seq<Field>, secret: string): seq<Field> {
    SetField(base, "signature", Str(Sign(mac, base, secret)))
  }

  /** Writing a field that is not covered leaves the canonical text alone. */
  lemma UncoveredKeepsText(fs: seq<Field>, key: string, v: Json)
    requires Envelope(fs) && WellFormed(v) && !Covered(key)
    ensures Envelope(SetField(fs, key, v)) && CanonicalText(SetField(fs, key, v)) == CanonicalText(fs)
  {
    var gs := SetField(fs, key, v);
    SetFieldWellFormed(fs, key, v);
    forall k | Covered(k)
      ensures (k in Keys(fs) <==> k in Keys(gs)) && (k in Keys(fs) ==> Same(Find(fs, k), Find(gs, k)))
    {
      UncoveredKeepsField(fs, key, v, k);
    }
    CanonicalKernel(fs, gs);
  }

  lemma UncoveredKeepsField(fs: seq<Field>, key: string, v: Json, k: string)
    requires Envelope(fs) && k != key
    ensures k in Keys(fs) <==> k in Keys(SetField(fs, key, v))
    ensures k in Keys(fs) ==> Same(Find(fs, k), Find(SetField(fs, key, v), k))
  {
    SetFieldKeys(fs, key, v);
    SetFieldFind(fs, key, v, k);
    if k in Keys(fs) { SameReflexive(Find(fs, k)); }
  }

  /** Round trip: a freshly signed envelope verifies under the same secret, and so does every
      envelope with the same content and signature, however its keys are ordered. */
  lemma SignedVerifies(mac: Mac, base: seq<Field>, secret: string, received: seq<Field>)
    requires HexMac(mac) && Envelope(base) && Envelope(received)
    requires Find(received, "signature") == Str(Sign(mac, base, secret)) && SameContent(base, received)
    ensures Verify(mac, Attach(mac, base, secret), secret) == Verified
    ensures Verify(mac, received, secret) == Verified
  {
    var s := Str(Sign(mac, base, secret));
    UncoveredKeepsText(base, "signature", s);
    SetFieldFind(base, "signature", s, "signature");
    VerifiedIffSigned(mac, Attach(mac, base, secret), secret);
    CanonicalKernel(base, received);
    VerifiedIffSigned(mac, received, secret);
  }

  /** A receiver accepts a replayed signature on different content only if the keyed hash collides. */
  lemma TamperingNeedsCollision(mac: Mac, base: seq<Field>, secret: string, received: seq<Field>)
    requires HexMac(mac) && Envelope(base) && Envelope(received)
    requires Find(received, "signature") == Str(Sign(mac, base, secret)) && !SameContent(base, received)
    ensures CanonicalText(base) != CanonicalText(received)
    ensures Verify(mac, received, secret) == Verified <==> mac(secret, CanonicalText(base)) == mac(secret, CanonicalText(received))
  {
    CanonicalKernel(base, received);
    VerifiedIffSigned(mac, received, secret);
    var s, t := Sign(mac, base, secret), Sign(mac, received, secret);
    assert s[|PREFIX|..] == mac(secret, CanonicalText(base)) && t[|PREFIX|..] == mac(secret, CanonicalText(received));
  }
}
