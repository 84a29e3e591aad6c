/** Storage keys (src/constants/config.ts). */
module Config {
  const AuthTokenKey: string := "@sahne:auth_token"
  const UserDataKey: string := "@sahne:user_data"
  const OnboardingCompletedKey: string := "@sahne:onboarding_completed"

  /** The two session keys, cleared together on logout and on a 401. */
  const SessionKeys: set<string> := {AuthTokenKey, UserDataKey}

  lemma StorageKeysDistinct()
    ensures AuthTokenKey != UserDataKey
    ensures OnboardingCompletedKey !in SessionKeys
  {
  }
}
