/** Translation of the host's command status into a negative errno. */
module HostErrors {
  import opened PipeAbi

  /**
   * goldfish_pipe_error_convert: the three recognised host failures map to
   * their errno, every other value (PIPE_ERROR_INVAL and anything unknown)
   * to -EINVAL.
   */
  function ErrorConvert(status: int): (r: int)
    ensures r < 0
    ensures r == -EAGAIN <==> status == PIPE_ERROR_AGAIN
    ensures r == -ENOMEM <==> status == PIPE_ERROR_NOMEM
    ensures r == -EIO <==> status == PIPE_ERROR_IO
    ensures r == -EINVAL <==> status !in {PIPE_ERROR_AGAIN, PIPE_ERROR_NOMEM, PIPE_ERROR_IO}
  {
    if status == PIPE_ERROR_AGAIN then -EAGAIN
    else if status == PIPE_ERROR_NOMEM then -ENOMEM
    else if status == PIPE_ERROR_IO then -EIO
    else -EINVAL
  }
}
