/**
 * The per-guild configuration cache (src/services/configManager.js): a map
 * from guild id to a JSON-like configuration object.
 */
module ConfigManager {
  import opened Wrappers

  /** The JSON values a configuration field can hold. `Times` is an object
      mapping event types to minute lists, the shape of `reminder_times`. */
  datatype Value =
    | Null
    | Bool(b: bool)
    | Num(n: int)
    | Str(s: string)
    | Times(t: map<string, seq<int>>)

  type Config = map<string, Value>

  /** JavaScript truthiness of a field value (a missing field is `undefined`). */
  predicate Truthy(v: Option<Value>) {
    match v
    case None => false
    case Some(Null) => false
    case Some(Bool(b)) => b
    case Some(Num(n)) => n != 0
    case Some(Str(s)) => s != ""
    case Some(Times(_)) => true
  }

  /** `config[field]`. */
  function Field(c: Config, field: string): Option<Value> {
    if field in c then Some(c[field]) else None
  }

  /** The record `saveGuildConfig` stores: `{ guild_id, ...config, updated_at }`.
      Fields of `config` override `guild_id`; `updated_at` is always the new
      timestamp. */
  function FullConfig(guildId: string, config: Config, now: string): (full: Config)
    ensures full.Keys == config.Keys + {"guild_id", "updated_at"}
    ensures full["updated_at"] == Str(now)
    ensures full["guild_id"] == if "guild_id" in config then config["guild_id"] else Str(guildId)
    ensures forall k :: k in config && k != "updated_at" ==> full[k] == config[k]
  {
    map["guild_id" := Str(guildId)] + config + map["updated_at" := Str(now)]
  }

  class ConfigStore {
    /** `guildConfigs`. */
    var guildConfigs: map<string, Config>

    constructor()
      ensures guildConfigs == map[]
    {
      guildConfigs := map[];
    }

    /** `getGuildConfig`: the stored configuration, `null` (here `None`) when
        the guild has none. */
    function GetGuildConfig(guildId: string): (r: Option<Config>)
      reads this
      ensures r.Some? <==> guildId in guildConfigs
      ensures r.Some? ==> r.value == guildConfigs[guildId]
    {
      if guildId in guildConfigs then Some(guildConfigs[guildId]) else None
    }

    /** `saveGuildConfig`: stores and returns the full record for one guild. */
    method SaveGuildConfig(guildId: string, config: Config, now: string) returns (full: Config)
      modifies this
      ensures full == FullConfig(guildId, config, now)
      ensures guildConfigs == old(guildConfigs)[guildId := full]
      ensures GetGuildConfig(guildId) == Some(full)
      ensures IsGuildConfigured(guildId) <==>
                Truthy(Field(config, "supabase_url")) && Truthy(Field(config, "supabase_key"))
      ensures forall g :: g != guildId ==> GetGuildConfig(g) == old(GetGuildConfig(g))
    {
      full := FullConfig(guildId, config, now);
      guildConfigs := guildConfigs[guildId := full];
    }

    /** `isGuildConfigured`: an entry exists and both connection fields are truthy. */
    predicate IsGuildConfigured(guildId: string)
      reads this
    {
      match GetGuildConfig(guildId)
      case None => false
      case Some(c) => Truthy(Field(c, "supabase_url")) && Truthy(Field(c, "supabase_key"))
    }

    /** `clearGuildCache`: forgets one guild. */
    method ClearGuildCache(guildId: string)
      modifies this
      ensures guildConfigs == old(guildConfigs) - {guildId}
      ensures GetGuildConfig(guildId) == None
      ensures !IsGuildConfigured(guildId)
      ensures forall g :: g != guildId ==> GetGuildConfig(g) == old(GetGuildConfig(g))
    {
      guildConfigs := guildConfigs - {guildId};
    }

    /** `getAllGuildConfigs`: every stored entry and nothing else. */
    function GetAllGuildConfigs(): (all: map<string, Config>)
      reads this
      ensures forall g :: (g in all <==> GetGuildConfig(g).Some?)
      ensures forall g :: g in all ==> GetGuildConfig(g) == Some(all[g])
    {
      guildConfigs
    }
  }
}
