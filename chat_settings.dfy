/** The settings dialog: a local copy of the chat settings that the handlers edit field by
    field, reset to the defaults, or hand back to the chat client on save. */
module ChatSettings {
  import opened Wrappers
  import opened Text
  import opened ChatTypes

  const DefaultMaxTokens: int := 2048

  /** The max-tokens field: `Number.parseInt(text) || 2048`, so a text that does not parse
      and one that parses to zero both fall back to 2048; any other value, negative or
      outside the field's suggested range, is kept. */
  function MaxTokensFrom(text: string): (n: int)
    ensures n != 0
    ensures ParseInt(text).None? ==> n == DefaultMaxTokens
    ensures ParseInt(text).Some? && ParseInt(text).value != 0 ==> n == ParseInt(text).value
  {
    match ParseInt(text)
    case None => DefaultMaxTokens
    case Some(v) => if v == 0 then DefaultMaxTokens else v
  }

  /** A positive number typed in decimal is kept as is; zero falls back to the default. */
  lemma MaxTokensRoundTrip(n: nat)
    ensures MaxTokensFrom(NatToString(n)) == if n == 0 then DefaultMaxTokens else n
  {
    ParseIntNatToString(n);
  }

  /** A negative number is kept too: nothing bounds the parsed value. */
  lemma MaxTokensNegative(n: nat)
    requires n > 0
    ensures MaxTokensFrom("-" + NatToString(n)) == -(n as int)
  {
    var d := NatToString(n);
    var s := "-" + d;
    assert LeadingSpace(s) == 0;
    assert TrimStart(s) == s;
    assert s[1..] == d;
    ParseMagnitudeDigits(d, n);
  }

  /** An empty field falls back to the default. */
  lemma MaxTokensEmpty()
    ensures MaxTokensFrom("") == DefaultMaxTokens
  {
    assert LeadingSpace("") == 0;
    assert DigitRun("", 10) == 0;
  }

  class SettingsDialog {
    /** The dialog's working copy of the settings. */
    var local: Settings
    var isOpen: bool

    /** The working copy starts from the settings the dialog is mounted with. */
    constructor (settings: Settings)
      ensures local == settings && isOpen
    {
      local := settings;
      isOpen := true;
    }

    /** Hands the working copy back unchanged and closes. */
    method HandleSave() returns (emitted: Settings)
      modifies this
      ensures emitted == old(local) && local == old(local) && !isOpen
    {
      emitted := local;
      isOpen := false;
    }

    method HandleReset()
      modifies this
      ensures local == DefaultSettings && isOpen == old(isOpen)
    {
      local := DefaultSettings;
    }

    method ApplyPreset(prompt: string)
      modifies this
      ensures local == old(local).(systemPrompt := prompt) && isOpen == old(isOpen)
    {
      local := local.(systemPrompt := prompt);
    }

    /** One of the two model cards was clicked. */
    method SelectModel(model: string)
      requires model == "grok" || model == "groq"
      modifies this
      ensures local == old(local).(model := model) && isOpen == old(isOpen)
    {
      local := local.(model := model);
    }

    method SetTemperature(t: real)
      modifies this
      ensures local == old(local).(temperature := t) && isOpen == old(isOpen)
    {
      local := local.(temperature := t);
    }

    method SetMaxTokens(text: string)
      modifies this
      ensures local == old(local).(maxTokens := MaxTokensFrom(text)) && isOpen == old(isOpen)
      ensures local.maxTokens != 0
    {
      local := local.(maxTokens := MaxTokensFrom(text));
    }

    method SetSystemPrompt(prompt: string)
      modifies this
      ensures local == old(local).(systemPrompt := prompt) && isOpen == old(isOpen)
    {
      local := local.(systemPrompt := prompt);
    }

    method SetTheme(theme: Theme)
      modifies this
      ensures local == old(local).(theme := theme) && isOpen == old(isOpen)
    {
      local := local.(theme := theme);
    }
  }
}
