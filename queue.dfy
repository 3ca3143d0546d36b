/** The shared queue file: plain text to which the bot only appends. */
module Queue {

  class QueueFile {
    var content: string

    constructor (content: string)
      ensures this.content == content
    {
      this.content := content;
    }

    /** Opening the file in append mode and writing `text`. */
    method Append(text: string)
      modifies this
      ensures content == old(content) + text
    {
      content := content + text;
    }
  }
}
