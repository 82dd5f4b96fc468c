/** The image editor: the original picture, the working picture that successive
    edits transform, and the flag that is set while an edit is pending. */
module ImageEditing {
  import opened Wrappers
  import opened Text
  import opened Types
  import opened GeminiService

  /** The working picture once an edit has answered: the new picture when the answer
      carried one, otherwise the picture edited. */
  function AfterEdit(current: string, reply: ImageReply): (next: string)
    ensures ImageOf(reply).Some? ==> next == ImageOf(reply).value && StartsWith(next, ImagePrefix)
    ensures ImageOf(reply).None? ==> next == current
  {
    var result := ImageOf(reply);
    if Truthy(result) then result.value else current
  }

  /** Edits chain: the payload sent for an edit of a picture the model produced is the
      data it produced, not the original picture's. */
  lemma {:induction false} EditsChain(current: string, data: string)
    requires ',' !in data
    ensures DataPayload(AfterEdit(current, ImageParts([Part(Some(data))]))) == Some(data)
  {
    assert ImageOf(ImageParts([Part(Some(data))])) == Some(ImagePrefix + data) by {
      InlineImageIsFirst([Part(Some(data))], 0);
    }
    PayloadOfGeneratedImage(data);
  }

  class ImageEditor {
    /** The picture the editor was opened with. */
    const original: string
    var current: string
    var editing: bool
    var customPrompt: string

    constructor (image: string)
      ensures original == image && current == image && !editing && customPrompt == ""
    {
      original, current, editing, customPrompt := image, image, false, "";
    }

    method TypePrompt(text: string)
      modifies this
      ensures customPrompt == text && current == old(current) && editing == old(editing)
    {
      customPrompt := text;
    }

    /** A style button: disabled while an edit is pending; otherwise the edit of the
        working picture starts. */
    method PressStyle(instruction: string) returns (started: bool)
      modifies this
      ensures started <==> !old(editing)
      ensures editing && current == old(current) && customPrompt == old(customPrompt)
    {
      started := !editing;
      editing := true;
    }

    /** The custom button: disabled while an edit is pending or when the prompt is
        blank once trimmed; the instruction sent is the prompt as typed. */
    method PressCustom() returns (instruction: Option<string>)
      modifies this
      ensures instruction.Some? <==> !old(editing) && Trim(customPrompt) != ""
      ensures instruction.Some? ==> instruction.value == customPrompt && !AllSpace(customPrompt)
      ensures editing == (old(editing) || instruction.Some?)
      ensures current == old(current) && customPrompt == old(customPrompt)
    {
      if editing || Trim(customPrompt) == "" {
        return None;
      }
      editing := true;
      return Some(customPrompt);
    }

    /** The edit answers: the working picture's payload was sent, the working picture
        becomes the result when there is one, an alert is shown otherwise, and the
        flag is cleared whatever the outcome. */
    method FinishEdit(reply: ImageReply) returns (sent: Option<string>, alerted: bool)
      modifies this
      ensures sent == DataPayload(old(current))
      ensures current == AfterEdit(old(current), reply)
      ensures alerted <==> ImageOf(reply).None?
      ensures !editing && customPrompt == old(customPrompt)
    {
      var url;
      sent, url := EditRecipeImage(current, reply);
      if Truthy(url) {
        current := url.value;
        alerted := false;
      } else {
        alerted := true;
      }
      editing := false;
    }

    /** Apply: enabled when no edit is pending and the picture changed; it hands the
        working picture to App. */
    method Apply() returns (saved: Option<string>)
      ensures saved.Some? <==> !editing && current != original
      ensures saved.Some? ==> saved.value == current
    {
      if editing || current == original {
        return None;
      }
      return Some(current);
    }

    /** Reset: under the same guard, the working picture goes back to the original. */
    method Reset()
      modifies this
      ensures !old(editing) ==> current == original
      ensures old(editing) ==> current == old(current)
      ensures editing == old(editing) && customPrompt == old(customPrompt)
    {
      if !editing && current != original {
        current := original;
      }
    }
  }
}
