/** The names that the server's event stream uses, as the client must know them. */
module Protocol {
  import opened CText

  const TYPE: Text := "type"
  const CONTENT_BLOCK: Text := "content_block"
  const DELTA: Text := "delta"
  const ERROR: Text := "error"
  const NAME: Text := "name"
  const ID: Text := "id"
  const TEXT: Text := "text"
  const PARTIAL_JSON: Text := "partial_json"
  const STOP_REASON: Text := "stop_reason"
  const MESSAGE: Text := "message"

  const BLOCK_START: Text := "content_block_start"
  const BLOCK_DELTA: Text := "content_block_delta"
  const BLOCK_STOP: Text := "content_block_stop"
  const MESSAGE_DELTA: Text := "message_delta"
  const TEXT_DELTA: Text := "text_delta"
  const INPUT_JSON_DELTA: Text := "input_json_delta"
  const TOOL_USE: Text := "tool_use"
  const NO_INPUT: Text := "{}"
  const PING: Text := "ping"

  /** A line of the stream that carries data, and the one that ends it. */
  const DATA: Text := "data: "
  const DONE: Text := "[DONE]"
  const EVENT: Text := "event: "
}
