/**
 * The configuration shared by `localimage` and `localimages`: the options a
 * field is declared with, the derivative tokens it resamples to, and its two
 * hook queues, which `pre` and `post` extend.
 */
module FieldConfig {
  import opened Wrappers
  import opened Hooks
  import opened Paths

  const DefaultDest := "public/assets"

  /**
   * The declared options. An empty `dest` or `datePrefix` stands for an unset
   * (falsy) option; `rename` is the `filename` option, a function of the
   * record and the name, here of the name alone.
   */
  datatype Options = Options(
    initial: bool,
    dest: string,
    resample: seq<string>,
    preMove: seq<Hook>,
    postMove: seq<Hook>,
    allowedTypes: Option<seq<string>>,
    datePrefix: string,
    rename: Option<string -> string>)

  /** What an upload reads from the field once it is constructed. */
  datatype Settings = Settings(
    dest: string,
    resample: seq<string>,
    allowedTypes: Option<seq<string>>,
    datePrefix: string,
    rename: Option<string -> string>)

  datatype ConfigError = InitialNotSupported | UnsupportedEvent(event: string)

  /**
   * The settings a constructor derives: the destination defaults to
   * `public/assets`, and the tokens are the default thumbnail followed by the
   * configured ones in their given order.
   */
  function SettingsOf(opts: Options): (s: Settings)
    ensures s.dest != ""
    ensures opts.dest != "" ==> s.dest == opts.dest
    ensures opts.dest == "" ==> s.dest == DefaultDest
    ensures s.allowedTypes == opts.allowedTypes && s.datePrefix == opts.datePrefix && s.rename == opts.rename
    ensures |s.resample| == |opts.resample| + 1 && s.resample[0] == DefaultToken
    ensures forall i :: 0 <= i < |opts.resample| ==> s.resample[i + 1] == opts.resample[i]
  {
    Settings(if opts.dest == "" then DefaultDest else opts.dest,
             [DefaultToken] + opts.resample,
             opts.allowedTypes,
             opts.datePrefix,
             opts.rename)
  }

  /** The event queues exist for `move` only. */
  const MoveEvent := "move"

  class ImageField {
    const settings: Settings
    var preMove: seq<Hook>
    var postMove: seq<Hook>

    constructor (settings: Settings, preMove: seq<Hook>, postMove: seq<Hook>)
      ensures this.settings == settings
      ensures this.preMove == preMove && this.postMove == postMove
    {
      this.settings := settings;
      this.preMove := preMove;
      this.postMove := postMove;
    }

    /**
     * The field type's constructor: refuses `initial`, and otherwise seeds the
     * queues with the hooks given in the options.
     */
    static method Create(opts: Options) returns (r: Result<ImageField, ConfigError>)
      ensures r.Failure? <==> opts.initial
      ensures r.Failure? ==> r.error == InitialNotSupported
      ensures r.Success? ==> fresh(r.value) && r.value.settings == SettingsOf(opts)
      ensures r.Success? ==> r.value.preMove == opts.preMove && r.value.postMove == opts.postMove
    {
      if opts.initial {
        return Failure(InitialNotSupported);
      }
      var field := new ImageField(SettingsOf(opts), opts.preMove, opts.postMove);
      r := Success(field);
    }

    /** `pre(event, fn)`: appends to the `move` queue; any other event is an error. */
    method Pre(event: string, fn: Hook) returns (r: Result<ImageField, ConfigError>)
      modifies this`preMove
      ensures r.Success? <==> event == MoveEvent
      ensures r.Success? ==> r.value == this && preMove == old(preMove) + [fn]
      ensures r.Failure? ==> r.error == UnsupportedEvent(event) && preMove == old(preMove)
    {
      if event != MoveEvent {
        return Failure(UnsupportedEvent(event));
      }
      preMove := preMove + [fn];
      r := Success(this);
    }

    /** `post(event, fn)`: appends to the `move` queue; any other event is an error. */
    method Post(event: string, fn: Hook) returns (r: Result<ImageField, ConfigError>)
      modifies this`postMove
      ensures r.Success? <==> event == MoveEvent
      ensures r.Success? ==> r.value == this && postMove == old(postMove) + [fn]
      ensures r.Failure? ==> r.error == UnsupportedEvent(event) && postMove == old(postMove)
    {
      if event != MoveEvent {
        return Failure(UnsupportedEvent(event));
      }
      postMove := postMove + [fn];
      r := Success(this);
    }
  }

  /**
   * A configured token `<op>x<width>x<height>` reaches the resampler right
   * after the default thumbnail and is read as that operation and those sizes.
   */
  lemma ConfiguredTokensParse(opts: Options, i: nat, op: string, width: string, height: string)
    requires i < |opts.resample| && opts.resample[i] == op + "x" + width + "x" + height
    requires 'x' !in op && 'x' !in width && 'x' !in height
    ensures ParseToken(SettingsOf(opts).resample[i + 1]) == DerivativeSpec(op, Some(width), Some(height))
    ensures ParseToken(SettingsOf(opts).resample[0]) == DerivativeSpec("thumbnail", Some("160"), Some("160"))
  {
    ParseTokenRoundTrip(op, width, height);
    DefaultTokenSpec();
  }
}
