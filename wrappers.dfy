/** Option, Result and the error taxonomy of cloudknot's AWS base layer.
    Every exception the modelled Python code raises (or lets escape) becomes
    one `Error` variant, carried by `Err`. */
module Wrappers {

  datatype Option<T> = None | Some(value: T)

  datatype Result<T> = Ok(value: T) | Err(error: Error)

  datatype Error =
    /** CloudknotInputError: an argument or a stored option has an invalid value */
    | InputError
    /** CloudknotConfigurationError: `cloudknot configure` has not been run */
    | ConfigurationError
    /** RegionException: the resource's region is not the current region */
    | RegionMismatch(resourceRegion: string, currentRegion: string)
    /** ProfileException: the resource's profile is not the current profile */
    | ProfileMismatch(resourceProfile: string, currentProfile: string)
    /** Python's IndexError from `[0]` or `[1]` on a list that is too short */
    | IndexError
    /** an error reply of the provider, passed through to the caller unchanged */
    | ProviderError(code: string)
}
