/**
 * Raster-source configuration: the migration that retires the
 * `extent_crop` field when a version-6 config is read, and the validator
 * that turns a configured extent tuple into a box.
 */
module RasterSourceConfig {
  import opened Wrappers
  import opened Boxes

  datatype ConfigError = ConfigError(message: string)

  /** The field removed in version 7. */
  const ExtentCrop := "extent_crop"

  /** A config dictionary; a key mapped to None holds Python's None. */
  type ConfigMap<V> = map<string, Option<V>>

  /** `cfg.get('extent_crop') is not None`. */
  predicate HasExtentCrop<V>(cfg: ConfigMap<V>) {
    ExtentCrop in cfg && cfg[ExtentCrop].Some?
  }

  /**
   * The dictionary the upgrader leaves behind: for version 6, a set
   * `extent_crop` is an error and otherwise the key is dropped; any other
   * version is left alone.
   */
  function UpgradedOf<V>(cfg: ConfigMap<V>, version: int): (r: Result<ConfigMap<V>, ConfigError>)
    ensures version != 6 ==> r == Success(cfg)
    ensures version == 6 ==> (r.Failure? <==> HasExtentCrop(cfg))
    ensures version == 6 && r.Success? ==> ExtentCrop !in r.value
    ensures version == 6 && ExtentCrop !in cfg ==> r == Success(cfg)
    ensures r.Success? ==> forall k :: k != ExtentCrop ==> (k in r.value <==> k in cfg) && (k in cfg ==> r.value[k] == cfg[k])
  {
    if version != 6 then Success(cfg)
    else if HasExtentCrop(cfg) then Failure(ConfigError("RasterSourceConfig.extent_crop is deprecated."))
    else
      assert ExtentCrop !in cfg ==> cfg - {ExtentCrop} == cfg by {
        if ExtentCrop !in cfg {
          assert (cfg - {ExtentCrop}).Keys == cfg.Keys;
        }
      }
      Success(cfg - {ExtentCrop})
  }

  /** Upgrading an already upgraded version-6 dictionary changes nothing more. */
  lemma UpgradeIdempotent<V>(cfg: ConfigMap<V>)
    requires UpgradedOf(cfg, 6).Success?
    ensures UpgradedOf(UpgradedOf(cfg, 6).value, 6) == UpgradedOf(cfg, 6)
  {
  }

  /** The dictionary a config is read from, migrated in place. */
  class ConfigDict<V> {
    var entries: ConfigMap<V>

    constructor (entries: ConfigMap<V>)
      ensures this.entries == entries
    {
      this.entries := entries;
    }

    /**
     * `rs_config_upgrader(cfg_dict, version)`: deletes `extent_crop` in place,
     * tolerating its absence; a set `extent_crop` at version 6 is an error
     * raised before anything is deleted.
     */
    method Upgrade(version: int) returns (outcome: Outcome<ConfigError>)
      modifies this
      ensures outcome.Pass? <==> UpgradedOf(old(entries), version).Success?
      ensures outcome.Pass? ==> entries == UpgradedOf(old(entries), version).value
      ensures outcome.Fail? ==> entries == old(entries) && outcome.error == UpgradedOf(old(entries), version).error
    {
      if version == 6 {
        if ExtentCrop in entries && entries[ExtentCrop].Some? {
          return Fail(ConfigError("RasterSourceConfig.extent_crop is deprecated."));
        }
        if ExtentCrop in entries {
          entries := entries - {ExtentCrop};
        }
      }
      outcome := Pass;
    }
  }

  /** The configured extent, `(ymin, xmin, ymax, xmax)`. */
  type ExtentTuple = (int, int, int, int)

  /** `validate_extent`: None stays None, a tuple becomes the box with the same four coordinates in order. */
  function ValidateExtent(v: Option<ExtentTuple>): (r: Option<Box>)
    ensures r.None? <==> v.None?
    ensures r.Some? ==> r.value.ymin == v.value.0 as real && r.value.xmin == v.value.1 as real &&
                        r.value.ymax == v.value.2 as real && r.value.xmax == v.value.3 as real
  {
    if v.None? then None
    else
      var (ymin, xmin, ymax, xmax) := v.value;
      Some(Box(ymin as real, xmin as real, ymax as real, xmax as real))
  }

  /** Validation loses nothing: distinct configured extents give distinct boxes. */
  lemma ValidateExtentInjective(t: ExtentTuple, u: ExtentTuple)
    ensures ValidateExtent(Some(t)) == ValidateExtent(Some(u)) <==> t == u
  {
  }

  /** A configured extent is a well-formed box exactly when its minima do not exceed its maxima. */
  lemma ValidateExtentWellFormed(t: ExtentTuple)
    ensures ValidateExtent(Some(t)).value.WellFormed() <==> t.0 <= t.2 && t.1 <= t.3
  {
  }
}
