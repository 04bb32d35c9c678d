/**
 * The protocol message as tinyirc handles it. Parsing and rendering belong to
 * the go-irc library; the model takes them as function parameters
 * (`parse: string -> Option<Message>`, `render: Message -> string`) wherever
 * tinyirc calls them.
 */
module Irc {
  import opened Wrappers

  /** The origin of a message, `name!user@host`. */
  datatype Prefix = Prefix(name: string, user: string, host: string)

  /** A protocol message: optional tags and prefix, a command, and its parameters in order. */
  datatype Message = Message(tags: map<string, string>, prefix: Option<Prefix>, command: string, params: seq<string>)

  /** The message tinyirc builds to join one configured channel. */
  function Join(channel: string): Message {
    Message(map[], None, "JOIN", [channel])
  }

  /** The message tinyirc sends when it stops. */
  const Quit: Message := Message(map[], None, "QUIT", [])

  /** The command of the server's registration-complete (welcome) reply. */
  const Welcome: string := "001"
}
