/**
 * The progress payloads the backend serialises to JSON and broadcasts
 * (main.py, `ProgressManager.create_hook` and `download_video`).
 */
module Messages {

  /** One payload; its `status` field is given by `Status`. */
  datatype ProgressMessage =
    | Downloading(videoId: string, progress: real, speed: real, eta: int)
    | Finished(videoId: string)   // sent with 'progress': 100
    | Failed(videoId: string, error: string)

  /** The `status` field of the JSON payload. */
  function Status(m: ProgressMessage): string
  {
    match m
    case Downloading(_, _, _, _) => "downloading"
    case Finished(_) => "finished"
    case Failed(_, _) => "error"
  }

  /** The `progress` field of the payload; error payloads carry none. */
  function ProgressField(m: ProgressMessage): real
    requires !m.Failed?
  {
    if m.Finished? then 100.0 else m.progress
  }
}
