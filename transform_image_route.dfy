// The guard in front of the image-transformation endpoint: a per-IP
// sliding-window rate limiter, the upload validator, the clamping of the
// generation parameters and the order in which `POST` rejects a request.
module TransformImageRoute {
  import opened Common

  const MaxFileSize: nat := 10 * 1024 * 1024
  const AllowedTypes: seq<string> := ["image/jpeg", "image/png", "image/webp"]

  const RateLimitWindowMs: int := 60 * 1000
  const RateLimitMaxRequests: nat := 5

  // ---------------------------------------------------------------------
  // Rate limiting

  /** `requests.filter(time => now - time < RATE_LIMIT_WINDOW)`. */
  function InWindow(requests: seq<int>, now: int): (r: seq<int>)
    ensures |r| <= |requests|
  {
    if requests == [] then []
    else (if now - requests[0] < RateLimitWindowMs then [requests[0]] else []) + InWindow(requests[1..], now)
  }

  /** The filter keeps exactly the stamps less than a window old. */
  lemma {:induction false} InWindowMembers(requests: seq<int>, now: int)
    ensures forall t :: t in InWindow(requests, now) <==> t in requests && now - t < RateLimitWindowMs
  {
    if requests != [] {
      InWindowMembers(requests[1..], now);
      assert requests == [requests[0]] + requests[1..];
    }
  }

  /** The verdict on one request and the list stored for the IP if it is let through. */
  datatype RateDecision = RateDecision(allowed: bool, stored: seq<int>)

  /**
   * `checkRateLimit` on the IP's stored timestamps: refuse when five or more
   * of them lie in the last minute; otherwise keep those in the window and
   * record `now` after them.
   */
  function RateLimitStep(requests: seq<int>, now: int): (r: RateDecision)
    ensures r.allowed <==> |InWindow(requests, now)| < RateLimitMaxRequests
    ensures r.allowed ==> 1 <= |r.stored| <= RateLimitMaxRequests && r.stored[|r.stored| - 1] == now
    ensures !r.allowed ==> r.stored == requests
  {
    var valid := InWindow(requests, now);
    if |valid| >= RateLimitMaxRequests then RateDecision(false, requests)
    else RateDecision(true, valid + [now])
  }

  /** The window is strict: a stamp exactly one window old no longer counts. */
  lemma WindowIsStrict(now: int)
    ensures InWindow([now - RateLimitWindowMs], now) == []
    ensures InWindow([now - RateLimitWindowMs + 1], now) == [now - RateLimitWindowMs + 1]
  {
  }

  lemma {:induction false} InWindowAppend(a: seq<int>, b: seq<int>, now: int)
    ensures InWindow(a + b, now) == InWindow(a, now) + InWindow(b, now)
  {
    if a == [] {
      assert a + b == b;
    } else {
      var ab := a + b;
      assert ab[0] == a[0];
      assert ab[1..] == a[1..] + b;
      InWindowAppend(a[1..], b, now);
      var head := if now - a[0] < RateLimitWindowMs then [a[0]] else [];
      calc {
        InWindow(ab, now);
        head + InWindow(ab[1..], now);
        head + (InWindow(a[1..], now) + InWindow(b, now));
        (head + InWindow(a[1..], now)) + InWindow(b, now);
      }
    }
  }

  /** Filtering again at a later instant is filtering once at that instant. */
  lemma {:induction false} InWindowLater(s: seq<int>, earlier: int, later: int)
    requires earlier <= later
    ensures InWindow(InWindow(s, earlier), later) == InWindow(s, later)
  {
    if s != [] {
      InWindowLater(s[1..], earlier, later);
      var head := if earlier - s[0] < RateLimitWindowMs then [s[0]] else [];
      InWindowAppend(head, InWindow(s[1..], earlier), later);
    }
  }

  /** Stamps that are all inside the window all survive the filter. */
  lemma {:induction false} InWindowKeepsAll(s: seq<int>, now: int)
    requires forall k :: 0 <= k < |s| ==> now - s[k] < RateLimitWindowMs
    ensures InWindow(s, now) == s
  {
    if s != [] {
      InWindowKeepsAll(s[1..], now);
      assert s == [s[0]] + s[1..];
    }
  }

  predicate NonDecreasing(s: seq<int>)
  {
    forall i, j :: 0 <= i < j < |s| ==> s[i] <= s[j]
  }

  /** One IP's stored list and the requests of it let through so far. */
  datatype Replayed = Replayed(stored: seq<int>, accepted: seq<int>)

  /** One more request at `now`: recorded in both lists if the limiter lets it through. */
  function Admit(prev: Replayed, now: int): Replayed
  {
    var step := RateLimitStep(prev.stored, now);
    if step.allowed then Replayed(step.stored, prev.accepted + [now]) else prev
  }

  /** The requests of one IP at the instants `nows`, in order, from an empty store. */
  function Replay(nows: seq<int>): Replayed
  {
    if nows == [] then Replayed([], []) else Admit(Replay(nows[..|nows| - 1]), nows[|nows| - 1])
  }

  /**
   * The stored list is the accepted stamps still in the window of the latest
   * acceptance, and the accepted stamps are a non-decreasing run no later
   * than `bound`.
   */
  predicate ReplayInv(r: Replayed, bound: int)
  {
    && NonDecreasing(r.accepted)
    && (forall k :: 0 <= k < |r.accepted| ==> r.accepted[k] <= bound)
    && (r.accepted == [] ==> r.stored == [])
    && (r.accepted != [] ==> r.stored == InWindow(r.accepted, r.accepted[|r.accepted| - 1]))
  }

  /** A request no earlier than every accepted one keeps the invariant. */
  lemma AdmitKeepsInv(prev: Replayed, now: int)
    requires ReplayInv(prev, now)
    ensures ReplayInv(Admit(prev, now), now)
    ensures InWindow(prev.stored, now) == InWindow(prev.accepted, now)
  {
    DecisionFromAccepted(prev, now);
    var a := prev.accepted;
    if RateLimitStep(prev.stored, now).allowed {
      InWindowAppend(a, [now], now);
      assert InWindow([now], now) == [now];
      var a' := a + [now];
      assert Admit(prev, now) == Replayed(InWindow(a, now) + [now], a');
      assert a'[|a'| - 1] == now;
      AppendLatest(a, now);
    }
  }

  /** Appending a stamp no earlier than every stamp keeps the order and the bound. */
  lemma AppendLatest(a: seq<int>, now: int)
    requires NonDecreasing(a) && forall k :: 0 <= k < |a| ==> a[k] <= now
    ensures NonDecreasing(a + [now])
    ensures forall k :: 0 <= k < |a + [now]| ==> (a + [now])[k] <= now
  {
  }

  /** While the clock does not go back, every prefix of the calls keeps the invariant. */
  lemma {:induction false} ReplayInvariant(nows: seq<int>)
    requires NonDecreasing(nows) && nows != []
    ensures ReplayInv(Replay(nows), nows[|nows| - 1])
  {
    var pre := nows[..|nows| - 1];
    var now := nows[|nows| - 1];
    if pre != [] {
      assert NonDecreasing(pre);
      ReplayInvariant(pre);
      assert pre[|pre| - 1] <= now;
    }
    assert ReplayInv(Replay(pre), now);
    AdmitKeepsInv(Replay(pre), now);
  }

  /**
   * The limiter's promise: while the clock does not go back, among the
   * requests of one IP that get through, any six span at least a full
   * window, so no 60-second window holds more than five of them.
   */
  lemma AtMostFivePerWindow(nows: seq<int>, i: nat)
    requires NonDecreasing(nows)
    requires i + RateLimitMaxRequests < |Replay(nows).accepted|
    ensures Replay(nows).accepted[i + RateLimitMaxRequests] - Replay(nows).accepted[i] >= RateLimitWindowMs
  {
    AcceptedSpread(nows, i);
  }

  /**
   * Once the invariant holds, the limiter's decision on a new request at
   * `now` depends only on the accepted stamps: it passes exactly when fewer
   * than five of them lie in the window ending at `now`.
   */
  lemma DecisionFromAccepted(r: Replayed, now: int)
    requires r.accepted == [] ==> r.stored == []
    requires r.accepted != [] ==> r.stored == InWindow(r.accepted, r.accepted[|r.accepted| - 1])
    requires forall k :: 0 <= k < |r.accepted| ==> r.accepted[k] <= now
    ensures InWindow(r.stored, now) == InWindow(r.accepted, now)
  {
    var a := r.accepted;
    if a != [] {
      InWindowLater(a, a[|a| - 1], now);
    }
  }

  /** Five stamps no later than `now`, the first less than a window old, all count. */
  lemma {:induction false} FiveInWindow(a: seq<int>, i: nat, now: int)
    requires NonDecreasing(a) && i + RateLimitMaxRequests == |a|
    requires forall k :: 0 <= k < |a| ==> a[k] <= now
    requires now - a[i] < RateLimitWindowMs
    ensures |InWindow(a, now)| >= RateLimitMaxRequests
  {
    InWindowAppend(a[..i], a[i..], now);
    assert a[..i] + a[i..] == a;
    assert forall k :: 0 <= k < |a[i..]| ==> now - a[i..][k] < RateLimitWindowMs by {
      forall k | 0 <= k < |a[i..]|
        ensures now - a[i..][k] < RateLimitWindowMs
      {
        assert a[i..][k] == a[i + k] && a[i] <= a[i + k];
      }
    }
    InWindowKeepsAll(a[i..], now);
  }

  lemma {:induction false} AcceptedSpread(nows: seq<int>, i: nat)
    requires NonDecreasing(nows)
    ensures var a := Replay(nows).accepted;
            i + RateLimitMaxRequests < |a| ==> a[i + RateLimitMaxRequests] - a[i] >= RateLimitWindowMs
  {
    if nows != [] {
      var pre := nows[..|nows| - 1];
      var now := nows[|nows| - 1];
      assert NonDecreasing(pre);
      var prev := Replay(pre);
      var a := prev.accepted;
      AcceptedSpread(pre, i);
      if pre != [] {
        ReplayInvariant(pre);
        assert pre[|pre| - 1] <= now;
      }
      assert ReplayInv(prev, now);
      AdmitKeepsInv(prev, now);
      if RateLimitStep(prev.stored, now).allowed && i + RateLimitMaxRequests == |a| {
        if now - a[i] < RateLimitWindowMs {
          FiveInWindow(a, i, now);
        }
        assert Replay(nows).accepted == a + [now];
      }
    }
  }

  /** The in-memory store `rateLimitMap`: IP to the stamps of its recent requests. */
  class RateLimiter {
    var requests: map<string, seq<int>>

    constructor ()
      ensures requests == map[]
    {
      requests := map[];
    }

    /** The stamps stored for `ip`, `[]` when there are none. */
    function Stored(ip: string): seq<int>
      reads this
    {
      if ip in requests then requests[ip] else []
    }

    /**
     * `checkRateLimit(ip)` at instant `now`: a refusal leaves the store
     * untouched; a pass replaces the IP's list, and no other IP's entry changes.
     */
    method CheckRateLimit(ip: string, now: int) returns (allowed: bool)
      modifies this
      ensures allowed == RateLimitStep(old(Stored(ip)), now).allowed
      ensures !allowed ==> requests == old(requests)
      ensures allowed ==> requests == old(requests)[ip := RateLimitStep(old(Stored(ip)), now).stored]
      ensures forall other :: other != ip && other in old(requests) ==>
                other in requests && requests[other] == old(requests)[other]
    {
      var reqs := if ip in requests then requests[ip] else [];
      var valid := InWindow(reqs, now);
      if |valid| >= RateLimitMaxRequests {
        return false;
      }
      valid := valid + [now];
      requests := requests[ip := valid];
      allowed := true;
    }

    /**
     * `POST`: rate limit first, then the form, then the image's presence,
     * then its validation; only a request that passes all four is handed to
     * the generation service.
     */
    method Post(forwardedFor: Option<string>, realIp: Option<string>, now: int, form: Option<Form>)
      returns (outcome: PostOutcome)
      modifies this
      ensures var ip := ClientIp(forwardedFor, realIp);
              var allowed := RateLimitStep(old(Stored(ip)), now).allowed;
              && outcome == Decide(allowed, form)
              && (allowed ==> requests == old(requests)[ip := RateLimitStep(old(Stored(ip)), now).stored])
              && (!allowed ==> requests == old(requests))
    {
      var ip := ClientIp(forwardedFor, realIp);
      var allowed := CheckRateLimit(ip, now);
      if !allowed {
        return RateLimited;
      }
      if form.None? {
        return FormError;
      }
      var params := ParseParams(form.value.inferenceSteps, form.value.guidanceScale, form.value.strength);
      if form.value.image.None? {
        return MissingImage;
      }
      var validation := ValidateImage(form.value.image.value);
      if validation.Rejected? {
        return Invalid(validation.reason);
      }
      outcome := Forward(form.value.image.value, PromptOf(form.value.prompt), params);
    }
  }

  // ---------------------------------------------------------------------
  // Validation

  datatype RejectReason = UnsupportedType | TooLarge | NotAnImage | Unreadable
  datatype Validation = Accepted | Rejected(reason: RejectReason)

  /** `uint8Array[i]`, which is `undefined` past the end. */
  function ByteAt(b: seq<Byte>, i: nat): Option<Byte>
  {
    if i < |b| then Some(b[i]) else None
  }

  /** The JPEG start-of-image marker FF D8 (ITU-T T.81, Table B.1). */
  const JpegSoi: seq<Byte> := [0xFF, 0xD8]
  /** The first four bytes of the PNG signature (section 5.2 of the PNG specification). */
  const PngSignature: seq<Byte> := [0x89, 0x50, 0x4E, 0x47]
  /** The `WEBP` FourCC at offset 8 of the RIFF header (section 2.4 of RFC 9649). */
  const WebpFourCC: seq<Byte> := [0x57, 0x45, 0x42, 0x50]
  const WebpOffset: nat := 8

  /** Byte-by-byte comparison as the route writes it, past-the-end reads failing. */
  predicate MatchesAt(b: seq<Byte>, offset: nat, sig: seq<Byte>)
  {
    forall k :: 0 <= k < |sig| ==> ByteAt(b, offset + k) == Some(sig[k])
  }

  /** A non-empty signature matches exactly when the header holds it, in full, at `offset`. */
  lemma MatchesAtSlice(b: seq<Byte>, offset: nat, sig: seq<Byte>)
    requires sig != []
    ensures MatchesAt(b, offset, sig) <==> offset + |sig| <= |b| && b[offset..offset + |sig|] == sig
  {
    if MatchesAt(b, offset, sig) {
      assert ByteAt(b, offset + (|sig| - 1)) == Some(sig[|sig| - 1]);
      forall k | 0 <= k < |sig|
        ensures b[offset..offset + |sig|][k] == sig[k]
      {
        assert ByteAt(b, offset + k) == Some(sig[k]);
      }
    }
    if offset + |sig| <= |b| && b[offset..offset + |sig|] == sig {
      forall k | 0 <= k < |sig|
        ensures ByteAt(b, offset + k) == Some(sig[k])
      {
        assert b[offset..offset + |sig|][k] == b[offset + k];
      }
    }
  }

  /** The header check: a JPEG, PNG or WebP signature at its place. */
  predicate HasImageSignature(b: seq<Byte>)
  {
    MatchesAt(b, 0, JpegSoi) || MatchesAt(b, 0, PngSignature) || MatchesAt(b, WebpOffset, WebpFourCC)
  }

  /**
   * `validateImage`: the declared type first, then the size, then the
   * bytes. Every rejection names the first check that failed.
   */
  function ValidateImage(f: UploadFile): (r: Validation)
    ensures f.mimeType !in AllowedTypes ==> r == Rejected(UnsupportedType)
    ensures f.mimeType in AllowedTypes && f.size > MaxFileSize ==> r == Rejected(TooLarge)
    ensures f.mimeType in AllowedTypes && f.size <= MaxFileSize && f.content.None? ==> r == Rejected(Unreadable)
    ensures r == Accepted <==> f.mimeType in AllowedTypes && f.size <= MaxFileSize
                               && f.content.Some? && HasImageSignature(f.content.value)
  {
    if f.mimeType !in AllowedTypes then Rejected(UnsupportedType)
    else if f.size > MaxFileSize then Rejected(TooLarge)
    else match f.content
      case None => Rejected(Unreadable)
      case Some(b) => if HasImageSignature(b) then Accepted else Rejected(NotAnImage)
  }

  /**
   * The signature check in bytes: FF D8 at 0, or 89 50 4E 47 at 0, or
   * 57 45 42 50 at 8; a header shorter than two bytes never passes.
   */
  lemma SignatureBytes(b: seq<Byte>)
    ensures HasImageSignature(b) <==>
              (|b| >= 2 && b[0] == 0xFF && b[1] == 0xD8)
              || (|b| >= 4 && b[0] == 0x89 && b[1] == 0x50 && b[2] == 0x4E && b[3] == 0x47)
              || (|b| >= 12 && b[8] == 0x57 && b[9] == 0x45 && b[10] == 0x42 && b[11] == 0x50)
    ensures |b| < 2 ==> !HasImageSignature(b)
  {
    MatchesAtSlice(b, 0, JpegSoi);
    MatchesAtSlice(b, 0, PngSignature);
    MatchesAtSlice(b, WebpOffset, WebpFourCC);
    if |b| >= 2 {
      assert b[0..2] == [b[0], b[1]];
    }
    if |b| >= 4 {
      assert b[0..4] == [b[0], b[1], b[2], b[3]];
    }
    if |b| >= 12 {
      assert b[8..12] == [b[8], b[9], b[10], b[11]];
    }
  }

  /** Exactly 10 MiB passes the size check; one byte more does not. */
  lemma SizeBoundary(mimeType: string, b: seq<Byte>)
    requires mimeType in AllowedTypes && HasImageSignature(b)
    ensures ValidateImage(UploadFile(mimeType, MaxFileSize, Some(b))) == Accepted
    ensures ValidateImage(UploadFile(mimeType, MaxFileSize + 1, Some(b))) == Rejected(TooLarge)
  {
  }

  /** The declared type need not match the bytes: JPEG bytes declared as PNG pass. */
  lemma DeclaredTypeNotMatched()
    ensures ValidateImage(UploadFile("image/png", 2, Some([0xFF, 0xD8]))) == Accepted
  {
    MatchesAtSlice([0xFF, 0xD8], 0, JpegSoi);
    assert [0xFF, 0xD8][0..2] == JpegSoi;
  }

  // ---------------------------------------------------------------------
  // Generation parameters

  datatype Params = Params(inferenceSteps: int, guidanceScale: real, strength: real)

  function ClampInt(lo: int, hi: int, x: int): int
  {
    if x < lo then lo else if x > hi then hi else x
  }

  function ClampReal(lo: real, hi: real, x: real): real
  {
    if x < lo then lo else if x > hi then hi else x
  }

  /**
   * `Math.max(lo, Math.min(hi, field || default))` for the three fields; a
   * missing or empty field takes its default.
   */
  function ParseParams(steps: Option<int>, guidance: Option<real>, strength: Option<real>): (p: Params)
    ensures 1 <= p.inferenceSteps <= 100 && 1.0 <= p.guidanceScale <= 30.0 && 0.1 <= p.strength <= 1.0
    ensures steps.None? ==> p.inferenceSteps == 30
    ensures guidance.None? ==> p.guidanceScale == 12.0
    ensures strength.None? ==> p.strength == 0.9
    ensures steps.Some? && 1 <= steps.value <= 100 ==> p.inferenceSteps == steps.value
    ensures guidance.Some? && 1.0 <= guidance.value <= 30.0 ==> p.guidanceScale == guidance.value
    ensures strength.Some? && 0.1 <= strength.value <= 1.0 ==> p.strength == strength.value
    ensures steps.Some? && steps.value > 100 ==> p.inferenceSteps == 100
    ensures steps.Some? && steps.value < 1 ==> p.inferenceSteps == 1
  {
    var s := if steps.Some? then steps.value else 30;
    var g := if guidance.Some? then guidance.value else 12.0;
    var st := if strength.Some? then strength.value else 0.9;
    Params(ClampInt(1, 100, s), ClampReal(1.0, 30.0, g), ClampReal(0.1, 1.0, st))
  }

  // ---------------------------------------------------------------------
  // The request

  /** The multipart form; the three numeric fields already parsed. */
  datatype Form = Form(image: Option<UploadFile>, prompt: Option<string>,
                       inferenceSteps: Option<int>, guidanceScale: Option<real>, strength: Option<real>)

  datatype PostOutcome =
    | RateLimited
    | FormError
    | MissingImage
    | Invalid(reason: RejectReason)
    | Forward(image: UploadFile, prompt: Option<string>, params: Params)

  /** The HTTP status each outcome is answered with; a forwarded request gets the generation service's. */
  function StatusOf(o: PostOutcome): (r: Option<int>)
    ensures r.None? <==> o.Forward?
    ensures r.Some? ==> 400 <= r.value < 600
    ensures r == Some(500) <==> o == FormError
  {
    match o
    case RateLimited => Some(429)
    case FormError => Some(500)
    case MissingImage => Some(400)
    case Invalid(_) => Some(400)
    case Forward(_, _, _) => None
  }

  /** `prompt || undefined`: an empty prompt is no prompt. */
  function PromptOf(prompt: Option<string>): (r: Option<string>)
    ensures r.Some? <==> prompt.Some? && prompt.value != []
    ensures r.Some? ==> r == prompt
  {
    if prompt.Some? && prompt.value != [] then prompt else None
  }

  /** `x-forwarded-for || x-real-ip || 'unknown'`. */
  function ClientIp(forwardedFor: Option<string>, realIp: Option<string>): (ip: string)
    ensures forwardedFor.Some? && forwardedFor.value != [] ==> ip == forwardedFor.value
    ensures (forwardedFor.None? || forwardedFor.value == []) && realIp.Some? && realIp.value != [] ==> ip == realIp.value
    ensures (forwardedFor.None? || forwardedFor.value == []) && (realIp.None? || realIp.value == []) ==> ip == "unknown"
  {
    if forwardedFor.Some? && forwardedFor.value != [] then forwardedFor.value
    else if realIp.Some? && realIp.value != [] then realIp.value
    else "unknown"
  }

  /** What `POST` answers once the rate limiter has ruled. */
  function Decide(allowed: bool, form: Option<Form>): (o: PostOutcome)
    ensures !allowed ==> o == RateLimited
    ensures o.Forward? ==> allowed && form.Some? && form.value.image == Some(o.image)
                           && ValidateImage(o.image) == Accepted
  {
    if !allowed then RateLimited
    else if form.None? then FormError
    else if form.value.image.None? then MissingImage
    else match ValidateImage(form.value.image.value)
      case Rejected(reason) => Invalid(reason)
      case Accepted =>
        Forward(form.value.image.value, PromptOf(form.value.prompt),
                ParseParams(form.value.inferenceSteps, form.value.guidanceScale, form.value.strength))
  }

  /**
   * The rejection order: 429 before anything else, an unreadable form (500)
   * next, a missing image (400) before validation, a failed validation (400)
   * before forwarding; an allowed request with a valid image is forwarded
   * with its prompt and clamped parameters.
   */
  lemma RejectionOrder(allowed: bool, form: Option<Form>)
    ensures StatusOf(Decide(allowed, form)) == Some(429) <==> !allowed
    ensures allowed && form.None? ==> Decide(allowed, form) == FormError && StatusOf(FormError) == Some(500)
    ensures allowed && form.Some? && form.value.image.None? ==> Decide(allowed, form) == MissingImage
    ensures allowed && form.Some? && form.value.image.Some? && ValidateImage(form.value.image.value).Rejected?
            ==> Decide(allowed, form) == Invalid(ValidateImage(form.value.image.value).reason)
    ensures allowed && form.Some? && form.value.image.Some? && ValidateImage(form.value.image.value) == Accepted
            ==> var f := form.value;
                Decide(allowed, form)
                == Forward(f.image.value, PromptOf(f.prompt), ParseParams(f.inferenceSteps, f.guidanceScale, f.strength))
    ensures Decide(allowed, form).Forward? ==> StatusOf(Decide(allowed, form)).None?
  {
  }
}
