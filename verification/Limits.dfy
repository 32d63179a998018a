/** Legal settings, and the constants the pull handler derives from them. */
module Limits {
  import opened Base
  import opened RelaySpec
  import B = RateBucket

  const MAX_BODY_BYTES_CEILING: nat := 1024 * 1024
  const MAX_QUEUE_DEPTH_CEILING: nat := 257
  const MAX_ROUTE_COUNT_CEILING: nat := 256
  const MAX_PUSH_RATE_BURST_CEILING: nat := 257
  const MAX_PUSH_RATE_REFILL_PER_SEC_CEILING: nat := 4096
  const MAX_INVITE_SLOTS_CEILING: nat := 4096
  const MAX_INVITE_BUNDLE_BYTES_CEILING: nat := 64 * 1024
  const MAX_INVITE_EXPIRY_SECS_CEILING: nat := 2_592_000
  const INVITE_CREATE_BURST_CEILING: nat := 4096
  const MAX_RETENTION_TTL_SECS_CEILING: nat := 2_592_000
  const MAX_PULL_LEASE_SECS_CEILING: nat := 3600
  const FINISH_SCAN_BATCH: nat := 16
  const PULL_BUDGET_BYTES: nat := FINISH_SCAN_BATCH * MAX_BODY_BYTES_CEILING

  datatype InviteLimits = InviteLimits(maxBundleBytes: nat, maxExpirySecs: nat, create: B.Controls)

  /** Everything an operator can limit. */
  datatype Settings = Settings(config: Config, push: B.Controls, invite: InviteLimits)

  const CEILINGS := Settings(
    Config(MAX_RETENTION_TTL_SECS_CEILING, MAX_PULL_LEASE_SECS_CEILING, MAX_BODY_BYTES_CEILING,
           MAX_QUEUE_DEPTH_CEILING, MAX_ROUTE_COUNT_CEILING, MAX_INVITE_SLOTS_CEILING),
    B.Controls(MAX_PUSH_RATE_BURST_CEILING, MAX_PUSH_RATE_REFILL_PER_SEC_CEILING),
    InviteLimits(MAX_INVITE_BUNDLE_BYTES_CEILING, MAX_INVITE_EXPIRY_SECS_CEILING,
                 B.Controls(INVITE_CREATE_BURST_CEILING, MAX_PUSH_RATE_REFILL_PER_SEC_CEILING)))

  /** Only the two refill rates may be zero. */
  ghost predicate NoZero(s: Settings) {
    && s.config.ttl > 0 && s.config.lease > 0 && s.config.maxBody > 0
    && s.config.maxDepth > 0 && s.config.maxRoutes > 0 && s.config.maxSlots > 0
    && s.push.burst > 0
    && s.invite.maxBundleBytes > 0 && s.invite.maxExpirySecs > 0 && s.invite.create.burst > 0
  }

  /** No limit of `a` is above that of `b`. */
  ghost predicate AtMost(a: Settings, b: Settings) {
    && a.config.ttl <= b.config.ttl && a.config.lease <= b.config.lease && a.config.maxBody <= b.config.maxBody
    && a.config.maxDepth <= b.config.maxDepth && a.config.maxRoutes <= b.config.maxRoutes
    && a.config.maxSlots <= b.config.maxSlots
    && a.push.burst <= b.push.burst && a.push.refill <= b.push.refill
    && a.invite.maxBundleBytes <= b.invite.maxBundleBytes && a.invite.maxExpirySecs <= b.invite.maxExpirySecs
    && a.invite.create.burst <= b.invite.create.burst && a.invite.create.refill <= b.invite.create.refill
  }

  ghost predicate LegalSettings(s: Settings) {
    NoZero(s) && AtMost(s, CEILINGS)
  }

  ghost predicate Legal(c: Config) {
    && 0 < c.ttl <= MAX_RETENTION_TTL_SECS_CEILING
    && 0 < c.lease <= MAX_PULL_LEASE_SECS_CEILING
    && 0 < c.maxBody <= MAX_BODY_BYTES_CEILING
    && 0 < c.maxDepth <= MAX_QUEUE_DEPTH_CEILING
    && 0 < c.maxRoutes <= MAX_ROUTE_COUNT_CEILING
    && 0 < c.maxSlots <= MAX_INVITE_SLOTS_CEILING
  }

  /** Zero is refused, and a value above the ceiling is lowered to it. */
  function LimitOrError(name: string, value: nat, ceiling: nat): (r: Result<nat>)
    ensures r.Err? <==> value == 0
    ensures r.Ok? ==> r.value <= ceiling && r.value <= value && (r.value == value || r.value == ceiling)
  {
    if value == 0 then Err("ERR_INVALID_CONFIG_" + name) else Ok(Min(value, ceiling))
  }

  /**
   What the constructors of the source make of the limits asked for: the greatest legal
   settings that do not exceed them.
   */
  function NewSettings(asked: Settings): (r: Result<Settings>)
    ensures r.Ok? <==> NoZero(asked)
    ensures r.Ok? ==> LegalSettings(r.value) && Legal(r.value.config) && AtMost(r.value, asked)
    ensures r.Ok? ==> forall s | LegalSettings(s) && AtMost(s, asked) :: AtMost(s, r.value)
  {
    var maxBody :- LimitOrError("MAX_BODY_BYTES", asked.config.maxBody, MAX_BODY_BYTES_CEILING);
    var maxDepth :- LimitOrError("MAX_QUEUE_DEPTH", asked.config.maxDepth, MAX_QUEUE_DEPTH_CEILING);
    var maxRoutes :- LimitOrError("MAX_ROUTE_COUNT", asked.config.maxRoutes, MAX_ROUTE_COUNT_CEILING);
    var burst :- LimitOrError("PUSH_RATE_BURST", asked.push.burst, MAX_PUSH_RATE_BURST_CEILING);
    var ttl :- LimitOrError("RETENTION_TTL_SECS", asked.config.ttl, MAX_RETENTION_TTL_SECS_CEILING);
    var lease :- LimitOrError("PULL_LEASE_SECS", asked.config.lease, MAX_PULL_LEASE_SECS_CEILING);
    var maxSlots :- LimitOrError("MAX_INVITE_SLOTS", asked.config.maxSlots, MAX_INVITE_SLOTS_CEILING);
    var bundle :- LimitOrError("MAX_INVITE_BUNDLE_BYTES", asked.invite.maxBundleBytes, MAX_INVITE_BUNDLE_BYTES_CEILING);
    var expiry :- LimitOrError("MAX_INVITE_EXPIRY_SECS", asked.invite.maxExpirySecs, MAX_INVITE_EXPIRY_SECS_CEILING);
    var create :- LimitOrError("INVITE_CREATE_BURST", asked.invite.create.burst, INVITE_CREATE_BURST_CEILING);
    Ok(Settings(
         Config(ttl, lease, maxBody, maxDepth, maxRoutes, maxSlots),
         B.Controls(burst, Min(asked.push.refill, MAX_PUSH_RATE_REFILL_PER_SEC_CEILING)),
         InviteLimits(bundle, expiry,
                      B.Controls(create, Min(asked.invite.create.refill, MAX_PUSH_RATE_REFILL_PER_SEC_CEILING)))))
  }

  /** Asking for the ceilings or more yields them, and these are they. */
  lemma CeilingsApply(asked: Settings)
    requires AtMost(CEILINGS, asked)
    ensures NewSettings(asked) == Ok(Settings(
              Config(30 * 24 * 3600, 3600, 1_048_576, 257, 256, 4096),
              B.Controls(257, 4096),
              InviteLimits(65_536, 30 * 24 * 3600, B.Controls(4096, 4096))))
  {
  }

  /** The documented defaults are accepted as they are. */
  lemma DefaultsAreLegal()
    ensures var defaults := Settings(
              Config(604_800, 60, 1_048_576, 257, 256, 256),
              B.Controls(257, 257),
              InviteLimits(16_384, 259_200, B.Controls(32, 1)));
            NewSettings(defaults) == Ok(defaults)
  {
  }

  /** The item cap and byte budget the pull handler passes on. */
  function PullMax(c: Config, asked: nat): nat {
    Min(asked, c.maxDepth)
  }

  function PullBudget(c: Config): nat {
    Max(PULL_BUDGET_BYTES, c.maxBody)
  }
}
