/** The per-call traversal state: an output builder and the identity set of visited objects. */
module Context {
  import opened Runtime
  import opened Strings
  import opened Configuration

  /** System.Text.StringBuilder, reduced to the text it holds. */
  class StringBuilder {
    var text: string

    constructor ()
      ensures text == ""
    {
      text := "";
    }

    method Append(s: string)
      modifies this
      ensures text == old(text) + s
    {
      text := text + s;
    }

    method AppendLine(s: string)
      modifies this
      ensures text == old(text) + s + NewLine
    {
      text := text + s + NewLine;
    }
  }

  /** SerializationContext: the configuration and builder it was given, and `Visited`, a set of
      object identities (Refs), so two distinct objects with equal contents are tracked apart. */
  class SerializationContext {
    const Config: PrintingConfig
    const Builder: StringBuilder
    var Visited: set<Ref>

    constructor (config: PrintingConfig, builder: StringBuilder)
      ensures Config == config && Builder == builder && Visited == {}
    {
      Config, Builder := config, builder;
      Visited := {};
    }

    /** Appends `level` tab characters and nothing else. */
    method Indent(level: nat)
      modifies Builder
      ensures Builder.text == old(Builder.text) + Tabs(level)
    {
      Builder.Append(Tabs(level));
    }
  }
}
