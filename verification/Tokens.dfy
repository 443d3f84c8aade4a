/**
 * Access and refresh tokens (src/modules/admin-identity/domain/token.service.ts).
 *
 * A signature is membership in the set of tokens this service has ever signed: both kinds share
 * that set, so the two signing secrets may coincide and only the `typ` claim tells them apart.
 */
module Tokens {
  import opened Prelude
  import opened Settings

  datatype Token =
    | Access(sub: AdminId, sid: SessionId, tier: nat, exp: int)
    | Refresh(sub: AdminId, sid: SessionId, jti: nat, exp: int)

  /** SHA-256 as a constructor: distinct tokens have distinct fingerprints. */
  datatype Fingerprint = Sha256(token: Token)

  /** `next` bounds every identifier handed out so far; `signed` is what signature checks accept. */
  datatype Mint = Mint(next: nat, signed: set<Token>)

  datatype Verdict = Accepted | TokenExpired | TokenInvalid

  function VerifyWith(mint: Mint, token: Token, now: int, wantAccess: bool): Verdict {
    if token !in mint.signed then TokenInvalid
    else if token.exp <= now then TokenExpired
    else if token.Access? != wantAccess then TokenInvalid
    else Accepted
  }

  function VerifyAccess(mint: Mint, token: Token, now: int): Verdict {
    VerifyWith(mint, token, now, true)
  }

  function VerifyRefresh(mint: Mint, token: Token, now: int): Verdict {
    VerifyWith(mint, token, now, false)
  }

  function Signed(mint: Mint, token: Token): Mint {
    mint.(signed := mint.signed + {token})
  }

  function Advanced(mint: Mint): Mint {
    mint.(next := mint.next + 1)
  }

  function RefreshTokenFor(cfg: Config, mint: Mint, now: int, sub: AdminId, sid: SessionId): Token {
    Refresh(sub, sid, mint.next, now + cfg.absoluteTtl)
  }

  function AccessTokenFor(cfg: Config, now: int, sub: AdminId, sid: SessionId, tier: nat): Token {
    Access(sub, sid, tier, now + cfg.accessTtl)
  }

  class TokenService {
    const cfg: Config
    var next: nat
    var signed: set<Token>

    constructor (cfg: Config)
      ensures this.cfg == cfg && View() == Mint(0, {})
    {
      this.cfg, next, signed := cfg, 0, {};
    }

    function View(): Mint reads this { Mint(next, signed) }

    /** A fresh UUID: never handed out before. */
    method NewId() returns (id: nat)
      modifies this
      ensures id == old(next) && View() == Advanced(old(View()))
    {
      id := next;
      next := next + 1;
    }

    method SignRefresh(now: int, sub: AdminId, sid: SessionId) returns (t: Token)
      modifies this
      ensures t == RefreshTokenFor(cfg, old(View()), now, sub, sid)
      ensures View() == Signed(Advanced(old(View())), t)
    {
      var jti := NewId();
      t := Refresh(sub, sid, jti, now + cfg.absoluteTtl);
      signed := signed + {t};
    }

    method SignAccess(now: int, sub: AdminId, sid: SessionId, tier: nat) returns (t: Token)
      modifies this
      ensures t == AccessTokenFor(cfg, now, sub, sid, tier)
      ensures View() == Signed(old(View()), t)
    {
      t := Access(sub, sid, tier, now + cfg.accessTtl);
      signed := signed + {t};
    }
  }
}
