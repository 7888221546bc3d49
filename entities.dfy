/**
 * The records the bot backend stores and the update router reads: command
 * buttons, commands, quick replies, per-bot settings and the configuration
 * snapshot `{commands, quickReplies, settings}`.
 *
 * A string field that JSON may leave out is modelled as `""` wherever every
 * use of it treats absent and empty alike (both are falsy in JavaScript);
 * `Option` is kept where the code tells `undefined` apart from `""`.
 */
module Entities {
  import opened Common

  /**
   * A button attached to a command. `labelText` is the JSON field `label`
   * and `kind` the field `type`
   * (`command`, `url` or `web_app`, or anything a client sent); `value`
   * is optional and its meaning depends on the kind.
   */
  datatype Button = Button(id: string, labelText: string, kind: string, value: Option<string>)

  datatype Command = Command(
    id: string,
    command: string,
    description: string,
    response: string,
    buttons: seq<Button>)

  datatype QuickReply = QuickReply(id: string, title: string, keyword: string, response: string)

  datatype Settings = Settings(
    defaultResponse: string,
    aiPersona: string,
    aiEnabled: bool,
    aiModel: string,
    aiTemperature: real,
    autoKeyboard: bool,
    autoCommands: bool,
    miniAppUrl: string,
    webhookUrl: string)

  /** What the router reads for one bot. */
  datatype Config = Config(commands: seq<Command>, quickReplies: seq<QuickReply>, settings: Settings)

  /** JavaScript truthiness of an optional string. */
  predicate Truthy(v: Option<string>)
  {
    v.Some? && v.value != ""
  }

  /** `v || fallback` for an optional string. */
  function OrElse(v: Option<string>, fallback: string): (r: string)
    ensures Truthy(v) ==> r == v.value
    ensures !Truthy(v) ==> r == fallback
  {
    if Truthy(v) then v.value else fallback
  }

  /** `button.value || button.label`: what a button sends and shows. */
  function ValueOrLabel(b: Button): string
  {
    OrElse(b.value, b.labelText)
  }
}
