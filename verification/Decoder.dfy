/** The decoders as they run: loops over one cursor, proved to compute what `Decode` says. */
module Decoder {
  import opened Bytes
  import opened Json
  import opened Numbers
  import opened Message
  import opened Reader
  import opened Decode

  method TakeNumberMember(c: Cursor, lib: NumLib) returns (g: Got<Double>)
    requires c.Valid()
    modifies c
    ensures c.Valid()
    ensures g == NumberMember(lib, old(c.Rest()))
    ensures !g.Malformed? ==> c.Rest() == g.rest
  {
    hide SkipFrom, StringBody, SkipWs, CStr;
    var kind := c.Peek();
    var ok;
    if kind == NumberKind {
      var d;
      ok, d := c.TakeNumber(lib);
      return if ok then Read(d, false, c.buf[c.pos..]) else Malformed;
    }
    if kind == StringKind {
      var tmp := new Byte[NUMBER_MAX];
      var truncated;
      ok, truncated := c.TakeString(tmp);
      if !ok {
        return Malformed;
      }
      var t := CStr(tmp[..]);
      if t == [] {
        return Absent(c.buf[c.pos..]);
      }
      var parsed := lib.strtod(t);
      if parsed.used != |t| {
        return Absent(c.buf[c.pos..]);
      }
      return Read(parsed.value, true, c.buf[c.pos..]);
    }
    if kind == NullKind {
      var v;
      ok, v := c.TakeLiteral(kind);
    } else {
      ok := c.SkipAny(lib);
    }
    return if ok then Absent(c.buf[c.pos..]) else Malformed;
  }

  method TakeBoolMember(c: Cursor, lib: NumLib) returns (g: Got<bool>)
    requires c.Valid()
    modifies c
    ensures c.Valid()
    ensures g == BoolMember(lib, old(c.Rest()))
    ensures !g.Malformed? ==> c.Rest() == g.rest
  {
    hide SkipFrom, StringBody, SkipWs, CStr;
    var kind := c.Peek();
    var ok, v;
    if kind == TrueKind || kind == FalseKind {
      ok, v := c.TakeLiteral(kind);
      return if ok then Read(v, false, c.buf[c.pos..]) else Malformed;
    }
    if kind == StringKind {
      var tmp := new Byte[BOOL_TEXT_MAX];
      var truncated;
      ok, truncated := c.TakeString(tmp);
      if !ok {
        return Malformed;
      }
      var t := CStr(tmp[..]);
      if CiEqual(t, Ascii("true")) {
        return Read(true, true, c.buf[c.pos..]);
      }
      if CiEqual(t, Ascii("false")) {
        return Read(false, true, c.buf[c.pos..]);
      }
      return Absent(c.buf[c.pos..]);
    }
    if kind == NullKind {
      ok, v := c.TakeLiteral(kind);
      return if ok then Absent(c.buf[c.pos..]) else Malformed;
    }
    if kind == NumberKind {
      var d;
      ok, d := c.TakeNumber(lib);
      return if ok then Read(d != ZERO_DOUBLE, true, c.buf[c.pos..]) else Malformed;
    }
    ok := c.SkipAny(lib);
    return if ok then Absent(c.buf[c.pos..]) else Malformed;
  }

  method TakeStringMember(c: Cursor, lib: NumLib, out: array<Byte>) returns (g: Got<seq<Byte>>)
    requires c.Valid() && out.Length > 0
    modifies c, out
    ensures c.Valid()
    ensures g == StringMember(lib, old(c.Rest()), out.Length)
    ensures !g.Malformed? ==> c.Rest() == g.rest
  {
    hide SkipFrom, StringBody, SkipWs, CStr;
    var kind := c.Peek();
    var ok;
    if kind == StringKind {
      var truncated;
      ok, truncated := c.TakeString(out);
      return if ok then Read(CStr(out[..]), truncated, c.buf[c.pos..]) else Malformed;
    }
    if kind == NullKind {
      var v;
      ok, v := c.TakeLiteral(kind);
    } else {
      ok := c.SkipAny(lib);
    }
    return if ok then Absent(c.buf[c.pos..]) else Malformed;
  }

  method TakeNumericSection<F>(c: Cursor, lib: NumLib, tab: seq<Key<F>>, start: Tally<F, Double>)
    returns (ok: bool, t: Tally<F, Double>)
    requires c.Valid()
    modifies c
    ensures c.Valid()
    ensures match Accept(old(c.Rest()), LBRACE)
            case None => !ok
            case Some(body) =>
              match NumericMembers(lib, tab, body, true, start)
              case None => !ok
              case Some((u, rest)) => ok && t == u && c.Rest() == rest
  {
    t := start;
    ok := c.AcceptByte(LBRACE);
    if !ok {
      return;
    }
    hide NumberMember, SkipValue, NextMember, Lookup;
    var key := new Byte[KEY_MAX];
    var first := true;
    ghost var body := c.Rest();
    while true
      invariant c.Valid() && fresh(key) && key.Length == KEY_MAX
      invariant NumericMembers(lib, tab, body, true, start) == NumericMembers(lib, tab, c.Rest(), first, t)
      decreases |c.buf| - c.pos
    {
      ghost var here := c.Rest();
      var next := c.TakeMember(first, key);
      match next {
        case End(_) => return true, t;
        case BadMember => return false, t;
        case Named(name, _) =>
          first := false;
          var k := LookupKey(tab, name);
          match k {
            case None =>
              var skipped := c.SkipAny(lib);
              if !skipped {
                return false, t;
              }
              t := t.(unknown := CountUnknown(t.unknown));
            case Some((id, mismatch)) =>
              var g := TakeNumberMember(c, lib);
              if g.Malformed? {
                return false, t;
              }
              t := Enter(t, id, mismatch, g);
          }
          assert |c.Rest()| < |here|;
      }
    }
  }

  method TakeOptions(c: Cursor, lib: NumLib, start: Tally<OptionField, bool>)
    returns (ok: bool, t: Tally<OptionField, bool>)
    requires c.Valid()
    modifies c
    ensures c.Valid()
    ensures match Accept(old(c.Rest()), LBRACE)
            case None => !ok
            case Some(body) =>
              match OptionMembers(lib, body, true, start)
              case None => !ok
              case Some((u, rest)) => ok && t == u && c.Rest() == rest
  {
    t := start;
    ok := c.AcceptByte(LBRACE);
    if !ok {
      return;
    }
    hide BoolMember, SkipValue, NextMember, Lookup;
    var key := new Byte[KEY_MAX];
    var first := true;
    ghost var body := c.Rest();
    while true
      invariant c.Valid() && fresh(key) && key.Length == KEY_MAX
      invariant OptionMembers(lib, body, true, start) == OptionMembers(lib, c.Rest(), first, t)
      decreases |c.buf| - c.pos
    {
      ghost var here := c.Rest();
      var next := c.TakeMember(first, key);
      match next {
        case End(_) => return true, t;
        case BadMember => return false, t;
        case Named(name, _) =>
          first := false;
          var k := LookupKey(OPTION_KEYS, name);
          match k {
            case None =>
              var skipped := c.SkipAny(lib);
              if !skipped {
                return false, t;
              }
              t := t.(unknown := CountUnknown(t.unknown));
            case Some((id, mismatch)) =>
              var g := TakeBoolMember(c, lib);
              if g.Malformed? {
                return false, t;
              }
              t := Enter(t, id, mismatch, g);
          }
          assert |c.Rest()| < |here|;
      }
    }
  }

  method TakeRootValue(c: Cursor, lib: NumLib, id: RootKey, start: Draft) returns (ok: bool, d: Draft)
    requires c.Valid()
    modifies c
    ensures c.Valid()
    ensures match RootValue(lib, id, old(c.Rest()), start)
            case None => !ok
            case Some((e, rest)) => ok && d == e && c.Rest() == rest
  {
    hide NumberMember, BoolMember, StringMember, SkipValue, NumericMembers, OptionMembers;
    SpaceIgnored(lib, c.Rest());
    d := start;
    match id {
      case DeviceIdKey =>
        var out := new Byte[DEVICE_ID_MAX];
        var g := TakeStringMember(c, lib, out);
        return !g.Malformed?, WithDeviceId(d, g);
      case UnitsKey =>
        var out := new Byte[UNITS_TEXT_MAX];
        var g := TakeStringMember(c, lib, out);
        return !g.Malformed?, WithUnits(d, g);
      case ApiVersionKey =>
        var out := new Byte[API_VERSION_MAX];
        var g := TakeStringMember(c, lib, out);
        return !g.Malformed?, WithApiVersion(d, g);
      case ShotNumberKey =>
        var g := TakeNumberMember(c, lib);
        return !g.Malformed?, WithShotNumber(d, g);
      case BallDataKey =>
        var kind := c.Peek();
        if kind == ObjectKind {
          var t;
          ok, t := TakeNumericSection(c, lib, BALL_KEYS, Tally(d.ball, d.flags, d.unknown));
          return ok, WithBall(d, t);
        }
        ok := c.SkipAny(lib);
      case ClubDataKey =>
        var kind := c.Peek();
        if kind == ObjectKind {
          var t;
          ok, t := TakeNumericSection(c, lib, CLUB_KEYS, Tally(d.club, d.flags, d.unknown));
          return ok, WithClub(d, t);
        }
        ok := c.SkipAny(lib);
      case OptionsKey =>
        var kind := c.Peek();
        if kind == ObjectKind {
          var t;
          ok, t := TakeOptions(c, lib, Tally(d.options, d.flags, d.unknown));
          return ok, WithOptions(d, t);
        }
        ok := c.SkipAny(lib);
    }
  }

  method TakeRootMembers(c: Cursor, lib: NumLib) returns (ok: bool, d: Draft)
    requires c.Valid()
    modifies c
    ensures c.Valid()
    ensures match RootMembers(lib, old(c.Rest()), true, BLANK)
            case None => !ok
            case Some((e, rest)) => ok && d == e && c.Rest() == rest
  {
    hide RootValue, SkipValue, NextMember, Lookup;
    var key := new Byte[KEY_MAX];
    var first := true;
    d := BLANK;
    ghost var body := c.Rest();
    while true
      invariant c.Valid() && fresh(key) && key.Length == KEY_MAX
      invariant RootMembers(lib, body, true, BLANK) == RootMembers(lib, c.Rest(), first, d)
      decreases |c.buf| - c.pos
    {
      ghost var here := c.Rest();
      var next := c.TakeMember(first, key);
      match next {
        case End(_) => return true, d;
        case BadMember => return false, d;
        case Named(name, _) =>
          first := false;
          var k := LookupKey(ROOT_KEYS, name);
          match k {
            case None =>
              ok := c.SkipAny(lib);
              if !ok {
                return;
              }
              d := d.(unknown := CountUnknown(d.unknown));
            case Some((id, mismatch)) =>
              ok, d := TakeRootValue(c, lib, id, d.(flags := Noted(d.flags, mismatch, KeyCaseMismatch)));
              if !ok {
                return;
              }
          }
          assert |c.Rest()| < |here|;
      }
    }
  }

  method MessageDecode(lib: NumLib, json: seq<Byte>) returns (r: Option<Message>)
    ensures r == DecodeMessage(lib, json)
  {
    hide RootMembers, Finish;
    var c := new Cursor(json);
    var ok := c.AcceptByte(LBRACE);
    if !ok {
      return None;
    }
    var d;
    ok, d := TakeRootMembers(c, lib);
    if !ok {
      return None;
    }
    ok := c.AtEnd();
    return if ok then Some(Finish(d, |json|)) else None;
  }

  method TakePlayerValue(c: Cursor, lib: NumLib, id: PlayerField, start: PlayerInfo) returns (ok: bool, p: PlayerInfo)
    requires c.Valid()
    modifies c
    ensures c.Valid()
    ensures match PlayerValue(lib, id, old(c.Rest()), start)
            case None => !ok
            case Some((q, rest)) => ok && p == q && c.Rest() == rest
  {
    hide NumberMember, StringMember, HandedParse, ClubParse;
    p := start;
    if id == DistanceKey {
      var g := TakeNumberMember(c, lib);
      ok := !g.Malformed?;
      if g.Read? {
        p := p.(distance := g.value, hasDistance := true);
      }
    } else {
      var out := new Byte[CODE_TEXT_MAX];
      var g := TakeStringMember(c, lib, out);
      ok := !g.Malformed?;
      if g.Read? {
        p := if id == HandedKey then p.(handed := HandedParse(g.value))
             else if id == ClubKey then p.(club := ClubParse(g.value))
             else p.(surface := g.value);
      }
    }
  }

  method TakePlayer(c: Cursor, lib: NumLib, start: PlayerInfo) returns (ok: bool, p: PlayerInfo)
    requires c.Valid()
    modifies c
    ensures c.Valid()
    ensures match Accept(old(c.Rest()), LBRACE)
            case None => !ok
            case Some(body) =>
              match PlayerMembers(lib, body, true, start)
              case None => !ok
              case Some((q, rest)) => ok && p == q && c.Rest() == rest
  {
    p := start;
    ok := c.AcceptByte(LBRACE);
    if !ok {
      return;
    }
    hide PlayerValue, SkipValue, NextMember, Lookup;
    var key := new Byte[KEY_MAX];
    var first := true;
    ghost var body := c.Rest();
    while true
      invariant c.Valid() && fresh(key) && key.Length == KEY_MAX
      invariant PlayerMembers(lib, body, true, start) == PlayerMembers(lib, c.Rest(), first, p)
      decreases |c.buf| - c.pos
    {
      ghost var here := c.Rest();
      var next := c.TakeMember(first, key);
      match next {
        case End(_) => return true, p;
        case BadMember => return false, p;
        case Named(name, _) =>
          first := false;
          var k := LookupKey(PLAYER_KEYS, name);
          match k {
            case None =>
              ok := c.SkipAny(lib);
              if !ok {
                return;
              }
            case Some((id, _)) =>
              ok, p := TakePlayerValue(c, lib, id, p);
              if !ok {
                return;
              }
          }
          assert |c.Rest()| < |here|;
      }
    }
  }

  method TakeResponseValue(c: Cursor, lib: NumLib, id: ResponseKey, start: Response) returns (ok: bool, r: Response)
    requires c.Valid()
    modifies c
    ensures c.Valid()
    ensures match ResponseValue(lib, id, old(c.Rest()), start)
            case None => !ok
            case Some((q, rest)) => ok && r == q && c.Rest() == rest
  {
    hide NumberMember, StringMember, SkipValue, PlayerMembers, ClampInt32;
    SpaceIgnored(lib, c.Rest());
    r := start;
    match id {
      case CodeKey =>
        var g := TakeNumberMember(c, lib);
        ok := !g.Malformed?;
        if g.Read? {
          r := r.(code := ClampInt32(g.value));
        }
      case MessageKey =>
        var out := new Byte[RESPONSE_TEXT_MAX];
        var g := TakeStringMember(c, lib, out);
        ok := !g.Malformed?;
        if g.Read? {
          r := r.(message := g.value, hasMessage := true);
        }
      case PlayerKey =>
        var kind := c.Peek();
        if kind == ObjectKind {
          var p;
          ok, p := TakePlayer(c, lib, r.player);
          r := r.(player := p, hasPlayer := true);
        } else {
          ok := c.SkipAny(lib);
        }
    }
  }

  method TakeResponseMembers(c: Cursor, lib: NumLib) returns (ok: bool, r: Response)
    requires c.Valid()
    modifies c
    ensures c.Valid()
    ensures match ResponseMembers(lib, old(c.Rest()), true, NO_RESPONSE)
            case None => !ok
            case Some((q, rest)) => ok && r == q && c.Rest() == rest
  {
    hide ResponseValue, SkipValue, NextMember, Lookup;
    var key := new Byte[KEY_MAX];
    var first := true;
    r := NO_RESPONSE;
    ghost var body := c.Rest();
    while true
      invariant c.Valid() && fresh(key) && key.Length == KEY_MAX
      invariant ResponseMembers(lib, body, true, NO_RESPONSE) == ResponseMembers(lib, c.Rest(), first, r)
      decreases |c.buf| - c.pos
    {
      ghost var here := c.Rest();
      var next := c.TakeMember(first, key);
      match next {
        case End(_) => return true, r;
        case BadMember => return false, r;
        case Named(name, _) =>
          first := false;
          var k := LookupKey(RESPONSE_KEYS, name);
          match k {
            case None =>
              ok := c.SkipAny(lib);
              if !ok {
                return;
              }
            case Some((id, _)) =>
              ok, r := TakeResponseValue(c, lib, id, r);
              if !ok {
                return;
              }
          }
          assert |c.Rest()| < |here|;
      }
    }
  }

  method ResponseDecode(lib: NumLib, json: seq<Byte>) returns (o: Option<Response>)
    ensures o == DecodeResponse(lib, json)
  {
    hide ResponseMembers;
    var c := new Cursor(json);
    var ok := c.AcceptByte(LBRACE);
    if !ok {
      return None;
    }
    var r;
    ok, r := TakeResponseMembers(c, lib);
    if !ok {
      return None;
    }
    ok := c.AtEnd();
    return if ok then Some(r) else None;
  }
}
